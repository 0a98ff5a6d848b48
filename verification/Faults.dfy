/** Which response code names a request's faults: that of the first one, in an order of precedence. */
module Faults {
  import opened V2g

  /** A fault that a request may have, whether it holds, and the code that names it. */
  datatype Objection = Objection(holds: bool, code: ResponseCode)

  /** The code names the first of the faults that holds, or success if there is none. */
  predicate Names(faults: seq<Objection>, success: ResponseCode, code: ResponseCode) {
    || ((forall k | 0 <= k < |faults| :: !faults[k].holds) && code == success)
    || (exists k | 0 <= k < |faults| :: FirstFault(faults, k) && code == faults[k].code)
  }

  predicate FirstFault(faults: seq<Objection>, k: nat)
    requires k < |faults|
  {
    faults[k].holds && forall j | 0 <= j < k :: !faults[j].holds
  }

  predicate AnyFault(faults: seq<Objection>) {
    exists k | 0 <= k < |faults| :: faults[k].holds
  }

  lemma NoFault(faults: seq<Objection>, success: ResponseCode, code: ResponseCode)
    requires Names(faults, success, code) && !success.IsFailure()
    requires forall k | 0 <= k < |faults| :: faults[k].code.IsFailure()
    ensures code.IsFailure() <==> AnyFault(faults)
  {
  }

  /** The five faults that a list can have, looked at one by one. */
  lemma NamesOneByOne(faults: seq<Objection>, success: ResponseCode, code: ResponseCode)
    requires |faults| <= 5
    requires code == if |faults| > 0 && faults[0].holds then faults[0].code
                     else if |faults| > 1 && faults[1].holds then faults[1].code
                     else if |faults| > 2 && faults[2].holds then faults[2].code
                     else if |faults| > 3 && faults[3].holds then faults[3].code
                     else if |faults| > 4 && faults[4].holds then faults[4].code
                     else success
    ensures Names(faults, success, code)
  {
    if |faults| > 0 && faults[0].holds { assert FirstFault(faults, 0);
    } else if |faults| > 1 && faults[1].holds { assert FirstFault(faults, 1);
    } else if |faults| > 2 && faults[2].holds { assert FirstFault(faults, 2);
    } else if |faults| > 3 && faults[3].holds { assert FirstFault(faults, 3);
    } else if |faults| > 4 && faults[4].holds { assert FirstFault(faults, 4);
    }
  }

  lemma NamesAppend(first: seq<Objection>, second: seq<Objection>, success: ResponseCode, inner: ResponseCode,
                    code: ResponseCode)
    requires Names(second, success, inner) && Names(first, inner, code)
    ensures Names(first + second, success, code)
  {
    var all := first + second;
    if k :| 0 <= k < |first| && FirstFault(first, k) && code == first[k].code {
      assert FirstFault(all, k);
    } else {
      assert code == inner;
      if k :| 0 <= k < |second| && FirstFault(second, k) && code == second[k].code {
        forall j | 0 <= j < |first| + k ensures !all[j].holds {
          assert all[j] == if j < |first| then first[j] else second[j - |first|];
        }
        assert FirstFault(all, |first| + k);
      } else {
        forall j | 0 <= j < |all| ensures !all[j].holds {
          assert all[j] == if j < |first| then first[j] else second[j - |first|];
        }
      }
    }
  }
}

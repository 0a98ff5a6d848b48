/**
 * Protocol negotiation: which of the protocols an EV offers the charger selects, and what
 * it answers. An offer is usable if its protocol is supported by the charger and by the test,
 * its name and major version match, and some payment option of the test can be used with it.
 */
module AppHandshake {
  import opened V2g
  import opened Wrappers

  const DIN_70121_MSG_DEF := "urn:din:70121:2012:MsgDef"
  const ISO_15118_2013_MSG_DEF := "urn:iso:15118:2:2013:MsgDef"
  const MAJOR_VERSION := 2
  const LOWEST_PRIORITY := 20

  /** Bit positions in the masks of supported protocols. */
  const DIN70121_BIT: bv8 := 1
  const ISO15118_2013_BIT: bv8 := 4

  /** One offer; its namespace is the received character buffer. */
  datatype Offer = Offer(namespace: string, major: nat, minor: nat, schemaId: nat, priority: nat)

  datatype Payment = Contract | ExternalPayment | NoPayment

  datatype Config = Config(
    chargerProtocols: bv8,
    testProtocols: bv8,
    payments: (Payment, Payment),
    eimSupported: bool,
    pncSupported: bool,
    tls: bool,
    terminated: bool,
    emergency: bool,
    stop: bool,
    terminateOnFailure: bool)

  datatype ResponseCode = OK_SuccessfulNegotiation | Failed_NoNegotiation

  /** A character buffer as a C string, which ends at the first zero. */
  function CString(characters: string): string {
    if characters == [] || characters[0] == 0 as char then []
    else [characters[0]] + CString(characters[1..])
  }

  predicate Supports(c: Config, bit: bv8) {
    (c.chargerProtocols & c.testProtocols) & bit != 0
  }

  predicate Lists(c: Config, p: Payment) {
    c.payments.0 == p || c.payments.1 == p
  }

  predicate EimUsable(c: Config) {
    c.eimSupported && Lists(c, ExternalPayment)
  }

  predicate PncUsable(c: Config) {
    c.pncSupported && Lists(c, Contract) && c.tls
  }

  /** The protocol that an offer names, if the charger and the test support it. */
  function Named(c: Config, o: Offer): Protocol {
    if Supports(c, DIN70121_BIT) && CString(o.namespace) == DIN_70121_MSG_DEF && o.major == MAJOR_VERSION then Din70121
    else if Supports(c, ISO15118_2013_BIT) && CString(o.namespace) == ISO_15118_2013_MSG_DEF && o.major == MAJOR_VERSION
    then Iso2013
    else UnknownProtocol
  }

  predicate Usable(c: Config, o: Offer) {
    match Named(c, o)
    case Din70121 => EimUsable(c)
    case Iso2013 => PncUsable(c) || EimUsable(c)
    case _ => false
  }

  /** An offer that may be selected: usable, and of at most the lowest priority. */
  predicate Eligible(c: Config, o: Offer) {
    Usable(c, o) && o.priority <= LOWEST_PRIORITY
  }

  /** The last of the eligible offers that have the smallest priority number. */
  predicate IsChoice(c: Config, offers: seq<Offer>, k: int) {
    && 0 <= k < |offers| && Eligible(c, offers[k])
    && (forall j | 0 <= j < |offers| && Usable(c, offers[j]) :: offers[k].priority <= offers[j].priority)
    && (forall j | k < j < |offers| && Usable(c, offers[j]) :: offers[k].priority < offers[j].priority)
  }

  lemma ChoiceIsUnique(c: Config, offers: seq<Offer>, k: int, l: int)
    requires IsChoice(c, offers, k) && IsChoice(c, offers, l)
    ensures k == l
  {
    assert Usable(c, offers[k]) && Usable(c, offers[l]);
  }

  /** There is a choice exactly if some offer is eligible. */
  lemma {:induction false} ChoiceExists(c: Config, offers: seq<Offer>)
    ensures (exists k :: IsChoice(c, offers, k)) <==> exists j | 0 <= j < |offers| :: Eligible(c, offers[j])
  {
    if offers != [] {
      var n := |offers| - 1;
      var front := offers[..n];
      ChoiceExists(c, front);
      if k :| IsChoice(c, front, k) {
        if Usable(c, offers[n]) && offers[n].priority <= front[k].priority {
          assert IsChoice(c, offers, n);
        } else {
          assert IsChoice(c, offers, k);
        }
      } else if Eligible(c, offers[n]) {
        forall j | 0 <= j < n && Usable(c, offers[j]) ensures offers[j].priority > LOWEST_PRIORITY {
          assert front[j] == offers[j];
        }
        assert IsChoice(c, offers, n);
      } else {
        forall j | 0 <= j < |offers| ensures !Eligible(c, offers[j]) {
          assert j < n ==> front[j] == offers[j];
        }
      }
    }
  }

  // ---------------------------------------------------------------------------
  // What an eligible offer is, told from the offer and the configuration
  // ---------------------------------------------------------------------------

  /** A character buffer holds a name: it starts with the name, and a zero or the end of the buffer follows. */
  predicate Holds(buffer: string, name: string) {
    && |name| <= |buffer| && buffer[..|name|] == name
    && (|buffer| > |name| ==> buffer[|name|] == 0 as char)
  }

  lemma {:induction false} CStringExactly(buffer: string, name: string)
    requires forall k | 0 <= k < |name| :: name[k] != 0 as char
    ensures CString(buffer) == name <==> Holds(buffer, name)
  {
    if buffer != [] && buffer[0] != 0 as char && name != [] && buffer[0] == name[0] {
      CStringExactly(buffer[1..], name[1..]);
      HoldsTail(buffer, name);
      assert name == [name[0]] + name[1..];
    }
  }

  lemma HoldsTail(buffer: string, name: string)
    requires buffer != [] && name != [] && buffer[0] == name[0]
    ensures Holds(buffer, name) <==> Holds(buffer[1..], name[1..])
  {
    if |name| <= |buffer| {
      assert buffer[..|name|] == [buffer[0]] + buffer[1..][..|name| - 1];
      assert name == [name[0]] + name[1..];
    }
  }

  /** An external payment can be used: it is enabled, and one of the test's two options. */
  predicate PaysExternally(c: Config) {
    c.eimSupported && (c.payments.0 == ExternalPayment || c.payments.1 == ExternalPayment)
  }

  /** A contract can be used: it is enabled, one of the test's two options, and the connection is secured. */
  predicate PaysByContract(c: Config) {
    c.pncSupported && c.tls && (c.payments.0 == Contract || c.payments.1 == Contract)
  }

  predicate OffersDin(c: Config, o: Offer) {
    && c.chargerProtocols & 1 != 0 && c.testProtocols & 1 != 0
    && Holds(o.namespace, "urn:din:70121:2012:MsgDef") && o.major == 2
    && PaysExternally(c)
  }

  predicate OffersIso(c: Config, o: Offer) {
    && c.chargerProtocols & 4 != 0 && c.testProtocols & 4 != 0
    && Holds(o.namespace, "urn:iso:15118:2:2013:MsgDef") && o.major == 2
    && (PaysExternally(c) || PaysByContract(c))
  }

  lemma OneBit(a: bv8, b: bv8)
    ensures (a & b) & 1 != 0 <==> a & 1 != 0 && b & 1 != 0
    ensures (a & b) & 4 != 0 <==> a & 4 != 0 && b & 4 != 0
  {
  }

  /**
   * An offer is eligible exactly if its priority is at most 20 and it names, in major version 2, either
   * DIN SPEC 70121, with external payment possible, or ISO 15118-2:2013, with some payment possible, and
   * both the charger and the test support that protocol. It is then taken for what it names.
   */
  lemma EligibleExactly(c: Config, o: Offer)
    ensures Eligible(c, o) <==> o.priority <= 20 && (OffersDin(c, o) || OffersIso(c, o))
    ensures OffersDin(c, o) ==> Named(c, o) == Din70121
    ensures OffersIso(c, o) ==> Named(c, o) == Iso2013
  {
    OneBit(c.chargerProtocols, c.testProtocols);
    CStringExactly(o.namespace, DIN_70121_MSG_DEF);
    CStringExactly(o.namespace, ISO_15118_2013_MSG_DEF);
  }

  /** The selected offer is eligible, and every other eligible one is of lower priority, or of the same and earlier. */
  lemma ChoiceExactly(c: Config, offers: seq<Offer>, k: int)
    ensures IsChoice(c, offers, k) <==>
              && 0 <= k < |offers| && offers[k].priority <= 20 && (OffersDin(c, offers[k]) || OffersIso(c, offers[k]))
              && forall j | 0 <= j < |offers| && j != k && (OffersDin(c, offers[j]) || OffersIso(c, offers[j])) ::
                   if j < k then offers[k].priority <= offers[j].priority else offers[k].priority < offers[j].priority
  {
    forall j | 0 <= j < |offers|
      ensures Usable(c, offers[j]) <==> OffersDin(c, offers[j]) || OffersIso(c, offers[j])
    {
      UsableExactly(c, offers[j]);
    }
    if 0 <= k < |offers| {
      EligibleExactly(c, offers[k]);
    }
  }

  lemma UsableExactly(c: Config, o: Offer)
    ensures Usable(c, o) <==> OffersDin(c, o) || OffersIso(c, o)
  {
    EligibleExactly(c, o.(priority := 0));
    assert Usable(c, o.(priority := 0)) == Usable(c, o);
  }

  class Handshake {
    var currentMsg: Msg
    var selectedProtocol: Protocol
    var responseCode: ResponseCode
    var schemaId: Option<nat>

    /** The selection loop: select every usable offer that is not worse than the best one so far. */
    method Select(c: Config, offers: seq<Offer>)
      modifies `selectedProtocol, `responseCode, `schemaId
      ensures forall k | IsChoice(c, offers, k) ::
                responseCode == OK_SuccessfulNegotiation
                && selectedProtocol == Named(c, offers[k]) && schemaId == Some(offers[k].schemaId)
      ensures !(exists k :: IsChoice(c, offers, k)) ==>
                responseCode == Failed_NoNegotiation && selectedProtocol == old(selectedProtocol) && schemaId == None
    {
      var evAppPriority := LOWEST_PRIORITY;
      ghost var best := -1;
      responseCode, schemaId := Failed_NoNegotiation, None;
      for i := 0 to |offers|
        invariant best == -1 ==> evAppPriority == LOWEST_PRIORITY
        invariant best == -1 ==> forall j | 0 <= j < i :: !Eligible(c, offers[j])
        invariant best == -1 ==> responseCode == Failed_NoNegotiation && schemaId == None
                                 && selectedProtocol == old(selectedProtocol)
        invariant best != -1 ==> IsChoice(c, offers[..i], best) && evAppPriority == offers[best].priority
        invariant best != -1 ==> responseCode == OK_SuccessfulNegotiation && schemaId == Some(offers[best].schemaId)
                                 && selectedProtocol == Named(c, offers[best])
      {
        var offer := offers[i];
        var name := CString(offer.namespace);
        assert offers[..i + 1] == offers[..i] + [offer];
        if Supports(c, DIN70121_BIT) && name == DIN_70121_MSG_DEF && offer.major == MAJOR_VERSION
           && evAppPriority >= offer.priority {
          if EimUsable(c) {
            evAppPriority := offer.priority;
            responseCode, schemaId, selectedProtocol := OK_SuccessfulNegotiation, Some(offer.schemaId), Din70121;
            best := i;
          }
        } else if Supports(c, ISO15118_2013_BIT) && name == ISO_15118_2013_MSG_DEF && offer.major == MAJOR_VERSION
                  && evAppPriority >= offer.priority {
          if PncUsable(c) || EimUsable(c) {
            evAppPriority := offer.priority;
            responseCode, schemaId, selectedProtocol := OK_SuccessfulNegotiation, Some(offer.schemaId), Iso2013;
            best := i;
          }
        }
      }
      assert offers[..|offers|] == offers;
      ChoiceExists(c, offers);
      if best != -1 {
        forall k | IsChoice(c, offers, k) ensures k == best {
          ChoiceIsUnique(c, offers, k, best);
        }
      }
    }

    /**
     * Handles the handshake request, which is absent if it cannot be decoded. Negotiation succeeds
     * exactly if some offer is eligible and nothing aborts the session.
     */
    method HandleAppHandshake(c: Config, request: Option<seq<Offer>>, encodes: bool) returns (event: V2gEvent)
      modifies this
      ensures currentMsg == SupportedAppProtocol
      ensures request == None ==> event == TerminateConnection && selectedProtocol == old(selectedProtocol)
      ensures c.terminated ==> event == TerminateConnection
      ensures request.Some? && !c.terminated ==>
                && (responseCode == OK_SuccessfulNegotiation <==>
                      (exists k :: IsChoice(c, request.value, k)) && !c.emergency && !c.stop)
                && (event == NoEvent <==>
                      && encodes
                      && (exists k :: IsChoice(c, request.value, k))
                      && (c.terminateOnFailure ==> responseCode == OK_SuccessfulNegotiation))
                && (event == NoEvent || event == SendAndTerminate)
      ensures request.Some? ==>
                && (forall k | IsChoice(c, request.value, k) ::
                      selectedProtocol == Named(c, request.value[k]) && schemaId == Some(request.value[k].schemaId))
                && (!(exists k :: IsChoice(c, request.value, k)) ==>
                      selectedProtocol == old(selectedProtocol) && schemaId == None)
    {
      event := NoEvent;
      responseCode, schemaId := Failed_NoNegotiation, None;
      currentMsg := SupportedAppProtocol;
      if request == None {
        return TerminateConnection;
      }
      Select(c, request.value);
      if responseCode == Failed_NoNegotiation {
        event := SendAndTerminate;
      }
      if c.terminated {
        return TerminateConnection;
      }
      if c.emergency || c.stop || event == SendAndTerminate {
        responseCode := Failed_NoNegotiation;
        if c.terminateOnFailure {
          event := SendAndTerminate;
        }
      }
      if !encodes {
        event := SendAndTerminate;
      }
    }
  }
}

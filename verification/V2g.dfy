/**
 * Vocabulary shared by the protocol servers: message identifiers, response codes,
 * the events a request handler hands back to the connection loop, and the bit masks
 * in which the sequencing tables list the requests that a state admits.
 */
module V2g {

  /** Message identifiers, in the order of the source's enumeration. */
  datatype Msg =
    | SupportedAppProtocol
    | SessionSetup
    | ServiceDiscovery
    | ServiceDetail
    | PaymentServiceSelection
    | PaymentDetails
    | Authorization
    | ChargeParameterDiscovery
    | MeteringReceipt
    | CertificateUpdate
    | CertificateInstallation
    | ChargingStatus
    | CableCheck
    | PreCharge
    | PowerDelivery
    | CurrentDemand
    | WeldingDetection
    | SessionStop
    | UnknownMsg

  /** The numeric value of an identifier. */
  function Id(m: Msg): (i: nat)
    ensures i <= 18
  {
    match m
    case SupportedAppProtocol => 0
    case SessionSetup => 1
    case ServiceDiscovery => 2
    case ServiceDetail => 3
    case PaymentServiceSelection => 4
    case PaymentDetails => 5
    case Authorization => 6
    case ChargeParameterDiscovery => 7
    case MeteringReceipt => 8
    case CertificateUpdate => 9
    case CertificateInstallation => 10
    case ChargingStatus => 11
    case CableCheck => 12
    case PreCharge => 13
    case PowerDelivery => 14
    case CurrentDemand => 15
    case WeldingDetection => 16
    case SessionStop => 17
    case UnknownMsg => 18
  }

  /** What a request handler tells the connection loop to do. */
  datatype V2gEvent = NoEvent | TerminateConnection | SendAndTerminate | SendRecvExiMsg | IgnoreMsg

  /** The loop sends the prepared response for these events. */
  predicate Sends(e: V2gEvent) {
    e == NoEvent || e == SendAndTerminate || e == SendRecvExiMsg
  }

  /** The loop reads a further request after these events. */
  predicate Continues(e: V2gEvent) {
    e == NoEvent || e == SendRecvExiMsg || e == IgnoreMsg
  }

  /** Protocols that a connection can speak; the source handles ISO 15118-2:2010 like DIN SPEC 70121. */
  datatype Protocol = UnknownProtocol | Din70121 | Iso2010 | Iso2013

  /** Response codes of both protocols; every code from FAILED upwards is a failure. */
  datatype ResponseCode =
    | OK
    | OK_NewSessionEstablished
    | OK_OldSessionJoined
    | FAILED
    | FAILED_SequenceError
    | FAILED_ServiceIDInvalid
    | FAILED_UnknownSession
    | FAILED_ServiceSelectionInvalid
    | FAILED_PaymentSelectionInvalid
    | FAILED_CertificateExpired
    | FAILED_SignatureError
    | FAILED_NoCertificateAvailable
    | FAILED_CertChainError
    | FAILED_ChallengeInvalid
    | FAILED_WrongChargeParameter
    | FAILED_PowerDeliveryNotApplied
    | FAILED_TariffSelectionInvalid
    | FAILED_NoChargeServiceSelected
    | FAILED_WrongEnergyTransfer
    | FAILED_ContactorError
    | FAILED_CertificateRevoked
  {
    predicate IsFailure() {
      !(OK? || OK_NewSessionEstablished? || OK_OldSessionJoined?)
    }
  }

  /** EVSEProcessing as it stands in a response; Finished is the zero value. */
  datatype Processing = Finished | Ongoing | WaitingForCustomer

  // ---------------------------------------------------------------------------
  // Request masks
  // ---------------------------------------------------------------------------

  function Bit(i: nat): bv32
    requires i <= 18
  {
    1 << i
  }

  /** The mask a table row stores for a list of admitted requests. */
  function MaskOf(row: seq<Msg>): bv32 {
    if row == [] then 0 else Bit(Id(row[0])) | MaskOf(row[1..])
  }

  lemma BitsAreDisjoint(i: bv5, j: bv5)
    ensures ((1 as bv32 << i) & (1 as bv32 << j)) != 0 <==> i == j
  {
  }

  lemma BitsMeet(a: Msg, b: Msg)
    ensures (Bit(Id(a)) & Bit(Id(b))) != 0 <==> a == b
  {
    BitsAreDisjoint(Id(a) as bv5, Id(b) as bv5);
  }

  lemma MeetOfJoin(x: bv32, y: bv32, z: bv32)
    ensures ((x | y) & z) != 0 <==> (x & z) != 0 || (y & z) != 0
  {
  }

  /** Testing a message's bit in a mask is testing that the row lists the message. */
  lemma {:induction false} MaskTestsMembership(row: seq<Msg>, m: Msg)
    ensures (MaskOf(row) & Bit(Id(m))) != 0 <==> m in row
  {
    if row != [] {
      MaskTestsMembership(row[1..], m);
      BitsMeet(row[0], m);
      MeetOfJoin(Bit(Id(row[0])), MaskOf(row[1..]), Bit(Id(m)));
    } else {
      assert (0 as bv32 & Bit(Id(m))) == 0;
    }
  }
}

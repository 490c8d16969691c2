/**
 * The reserved negative integers of the relay protocol. A sign travels on the
 * wire either as handshake metadata (role, direction) or in-band with the
 * payload (start, stop, exit); every non-negative integer is payload.
 */
module ProtocolConstants {
  import opened Wrappers

  /** The closed set of signs, one constructor per Java constant. */
  datatype Sign =
    | NoneValue    // -1: "nothing yet", the consistency tracker's initial mark
    | StartSign    // -2: the Initiator has (re)started generation
    | StopSign     // -3: the Initiator has paused generation
    | ExitSign     // -4: the Initiator is about to exit
    | InitiatorSign // -5: handshake role of the Initiator
    | EchoSign     // -6: handshake role of the Echo node
    | ProxySign    // -7: role of the Proxy (never sent)
    | SenderSign   // -8: handshake direction "client pushes data to the proxy"
    | ReceiverSign // -9: handshake direction "proxy pushes data to the client"

  /** The integer a sign is written as. */
  function Encode(s: Sign): (v: int)
    ensures -9 <= v <= -1
  {
    match s
    case NoneValue => -1
    case StartSign => -2
    case StopSign => -3
    case ExitSign => -4
    case InitiatorSign => -5
    case EchoSign => -6
    case ProxySign => -7
    case SenderSign => -8
    case ReceiverSign => -9
  }

  /** The sign an integer denotes, if any. */
  function Decode(v: int): (r: Option<Sign>)
    ensures r.Some? ==> Encode(r.value) == v
    ensures -9 <= v <= -1 <==> r.Some?
  {
    match v
    case -1 => Some(NoneValue)
    case -2 => Some(StartSign)
    case -3 => Some(StopSign)
    case -4 => Some(ExitSign)
    case -5 => Some(InitiatorSign)
    case -6 => Some(EchoSign)
    case -7 => Some(ProxySign)
    case -8 => Some(SenderSign)
    case -9 => Some(ReceiverSign)
    case _ => None
  }

  /** Every sign decodes back to itself, so the encoding is injective. */
  lemma DecodeEncode(s: Sign)
    ensures Decode(Encode(s)) == Some(s)
  {
  }

  /** Two signs with the same wire value are the same sign. */
  lemma EncodeInjective(s: Sign, t: Sign)
    ensures Encode(s) == Encode(t) <==> s == t
  {
    DecodeEncode(s);
    DecodeEncode(t);
  }

  /** No sign collides with a payload value. */
  lemma SignsAreNegative(s: Sign)
    ensures Encode(s) < 0
    ensures Decode(Encode(s)).Some?
  {
  }

  /** Payload values are never read as signs. */
  lemma PayloadIsNoSign(v: int)
    requires v >= 0
    ensures Decode(v) == None
  {
  }

  predicate IsRole(s: Sign) {
    s == InitiatorSign || s == EchoSign
  }

  predicate IsDirection(s: Sign) {
    s == SenderSign || s == ReceiverSign
  }

  predicate IsControl(s: Sign) {
    s == StartSign || s == StopSign || s == ExitSign
  }

  /** Handshake roles and directions use disjoint values, and so do the
      in-band control signs and the tracker's "none" mark. */
  lemma SignClassesDisjoint(s: Sign, t: Sign)
    ensures IsRole(s) && IsDirection(t) ==> Encode(s) != Encode(t)
    ensures IsControl(s) ==> Encode(s) != Encode(NoneValue)
    ensures IsControl(s) && (IsRole(t) || IsDirection(t)) ==> Encode(s) != Encode(t)
  {
  }

  /**
   * A wire integer seen as a tagged union: payload or sign. Values that are
   * negative but no sign are kept as `Unknown`, which is how the workers
   * treat them (they are dropped or forwarded like any other negative).
   */
  datatype Message = Payload(n: nat) | Control(sign: Sign) | Unknown(raw: int)

  function Classify(v: int): (m: Message)
    ensures v >= 0 <==> m.Payload?
    ensures m.Control? ==> Encode(m.sign) == v
  {
    if v >= 0 then Payload(v)
    else match Decode(v)
      case Some(s) => Control(s)
      case None => Unknown(v)
  }

  function Serialize(m: Message): int {
    match m
    case Payload(n) => n
    case Control(s) => Encode(s)
    case Unknown(raw) => raw
  }

  /** Classification loses nothing: serialising it gives the integer back. */
  lemma ClassifyRoundTrip(v: int)
    ensures Serialize(Classify(v)) == v
  {
  }

  /** The payload values of a stream, in order: what survives dropping every
      negative integer. */
  function Payloads(s: seq<int>): (r: seq<int>)
    ensures |r| <= |s|
    decreases |s|
  {
    if s == [] then []
    else Payloads(s[..|s| - 1]) + (if s[|s| - 1] >= 0 then [s[|s| - 1]] else [])
  }

  lemma PayloadsAppend(s: seq<int>, x: int)
    ensures Payloads(s + [x]) == Payloads(s) + (if x >= 0 then [x] else [])
  {
    assert (s + [x])[..|s|] == s;
  }

  /** A value survives the filter exactly when it occurs in the stream and is
      non-negative. */
  lemma {:induction false} PayloadsMembers(s: seq<int>)
    ensures forall x :: x in Payloads(s) <==> x in s && x >= 0
    decreases |s|
  {
    if s != [] {
      var init := s[..|s| - 1];
      PayloadsMembers(init);
      assert s == init + [s[|s| - 1]];
    }
  }

  /** A stream without negative values passes unchanged. */
  lemma {:induction false} PayloadsOfPayloads(s: seq<int>)
    requires forall i :: 0 <= i < |s| ==> s[i] >= 0
    ensures Payloads(s) == s
    decreases |s|
  {
    if s != [] {
      var init := s[..|s| - 1];
      PayloadsOfPayloads(init);
      assert s == init + [s[|s| - 1]];
    }
  }
}

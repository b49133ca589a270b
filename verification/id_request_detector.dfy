/** `IDRequestDetector.handle_packet`: a frame that decodes as LAPDm carrying
    a GSM A-interface DTAP message that is an Identity Request for the IMSI
    bumps the detector's counter and sets its rank to UNKNOWN with a message
    that states the count. Every other frame leaves the detector as it was. */
module IdRequestDetector {
  import opened Outcomes
  import opened Decimal

  /** The decoded protocol layers under the GSMTAP header, outermost first.
      A layer is identified by its constructor, which stands for the layer
      name the decoder gives it; `OtherLayer` is any layer but the three
      the detector looks for. */
  datatype Layer =
    | Lapdm(payload: Layer)
    | GsmaIfDtap(payload: Layer)
    | IdentityRequest(idType: int, payload: Layer)
    | OtherLayer(payload: Layer)
    | NoPayload

  /** A received frame: the GSMTAP header and what it carries. */
  datatype Frame = GsmTap(payload: Layer)

  /** Identity type code of the IMSI in an Identity Request. */
  const ImsiIdentityType: int := 1

  /** Detector ranks; the ranks other than UNKNOWN belong to the detector
      base class and are left abstract. */
  datatype Rank = Unknown | OtherRank(level: int)

  /** The part of a detector this handler reads and writes. */
  datatype State = State(counter: nat, rank: Rank, message: string)

  const MessagePrefix: string := "IMSI request detected "
  const MessageSuffix: string := " times"

  /** The message reported after the `n`-th IMSI request. */
  function ImsiMessage(n: nat): string
  {
    MessagePrefix + Show(n) + MessageSuffix
  }

  /** The count a detector message states, if it has the form `ImsiMessage` writes. */
  function CountInMessage(m: string): Option<nat>
  {
    if |m| >= |MessagePrefix| + |MessageSuffix|
       && m[..|MessagePrefix|] == MessagePrefix
       && m[|m| - |MessageSuffix|..] == MessageSuffix
    then Parse(m[|MessagePrefix|..|m| - |MessageSuffix|])
    else None
  }

  /** The message states the count it was written for. */
  lemma MessageRoundTrip(n: nat)
    ensures CountInMessage(ImsiMessage(n)) == Some(n)
  {
    var m := ImsiMessage(n);
    assert m[..|MessagePrefix|] == MessagePrefix;
    assert m[|m| - |MessageSuffix|..] == MessageSuffix;
    assert m[|MessagePrefix|..|m| - |MessageSuffix|] == Show(n);
    ParseShow(n);
  }

  /** The frame is an Identity Request for the IMSI, carried in DTAP over LAPDm. */
  predicate IsImsiRequest(f: Frame)
  {
    && f.payload.Lapdm?
    && f.payload.payload.GsmaIfDtap?
    && f.payload.payload.payload.IdentityRequest?
    && f.payload.payload.payload.idType == ImsiIdentityType
  }

  /** One more IMSI request seen: count it and raise rank UNKNOWN. */
  function Report(s: State): State
  {
    var counter := s.counter + 1;
    State(counter, Unknown, ImsiMessage(counter))
  }

  /** Walks the layers one at a time, giving up silently at the first mismatch. */
  function HandlePacket(s: State, f: Frame): (next: State)
    ensures IsImsiRequest(f) ==>
              && next.counter == s.counter + 1
              && next.rank == Unknown
              && CountInMessage(next.message) == Some(next.counter)
    ensures !IsImsiRequest(f) ==> next == s
  {
    match f.payload
    case Lapdm(link) =>
      (match link
       case GsmaIfDtap(message) =>
         (match message
          case IdentityRequest(idType, _) =>
            if idType == ImsiIdentityType then
              MessageRoundTrip(s.counter + 1);
              Report(s)
            else s
          case _ => s)
       case _ => s)
    case _ => s
  }

  /** The detector's receive loop: each frame handed to `HandlePacket` in order. */
  function Run(s: State, frames: seq<Frame>): State
    decreases |frames|
  {
    if |frames| == 0 then s else Run(HandlePacket(s, frames[0]), frames[1..])
  }

  /** How many of the frames are IMSI requests. */
  function MatchCount(frames: seq<Frame>): nat
  {
    if |frames| == 0 then 0
    else MatchCount(frames[..|frames| - 1]) + (if IsImsiRequest(frames[|frames| - 1]) then 1 else 0)
  }

  /** Running two batches one after the other is running their concatenation. */
  lemma {:induction false} RunAppend(s: State, a: seq<Frame>, b: seq<Frame>)
    ensures Run(s, a + b) == Run(Run(s, a), b)
    decreases |a|
  {
    if |a| == 0 {
      assert a + b == b;
    } else {
      assert (a + b)[1..] == a[1..] + b;
      RunAppend(HandlePacket(s, a[0]), a[1..], b);
    }
  }

  /** The last frame is handled last. */
  lemma {:induction false} RunLast(s: State, frames: seq<Frame>)
    requires |frames| > 0
    ensures Run(s, frames) == HandlePacket(Run(s, frames[..|frames| - 1]), frames[|frames| - 1])
  {
    var n := |frames| - 1;
    assert frames == frames[..n] + [frames[n]];
    RunAppend(s, frames[..n], [frames[n]]);
  }

  /** The final counter is the initial one plus the number of IMSI requests. */
  lemma {:induction false} RunCounts(s: State, frames: seq<Frame>)
    ensures Run(s, frames).counter == s.counter + MatchCount(frames)
  {
    if |frames| > 0 {
      RunLast(s, frames);
      RunCounts(s, frames[..|frames| - 1]);
    }
  }

  /** The counter never decreases as more frames arrive. */
  lemma CounterMonotone(s: State, frames: seq<Frame>, i: nat, j: nat)
    requires i <= j <= |frames|
    ensures Run(s, frames[..i]).counter <= Run(s, frames[..j]).counter
  {
    assert frames[..j] == frames[..i] + frames[i..j];
    RunAppend(s, frames[..i], frames[i..j]);
    RunCounts(Run(s, frames[..i]), frames[i..j]);
  }

  /** Frames none of which is an IMSI request leave the detector untouched. */
  lemma {:induction false} MismatchesAreNoOps(s: State, frames: seq<Frame>)
    requires forall i :: 0 <= i < |frames| ==> !IsImsiRequest(frames[i])
    ensures Run(s, frames) == s
  {
    if |frames| > 0 {
      MismatchesAreNoOps(s, frames[1..]);
    }
  }

  /** Once an IMSI request has been seen, the rank is UNKNOWN and the
      message states the current count. */
  lemma {:induction false} ReportStatesCount(s: State, frames: seq<Frame>)
    requires MatchCount(frames) > 0
    ensures Run(s, frames).rank == Unknown
    ensures CountInMessage(Run(s, frames).message) == Some(Run(s, frames).counter)
  {
    var n := |frames| - 1;
    RunLast(s, frames);
    if !IsImsiRequest(frames[n]) {
      ReportStatesCount(s, frames[..n]);
    }
  }
}

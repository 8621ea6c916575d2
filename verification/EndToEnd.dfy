/** A call from the caller, through a relay that appends to its arg2, to the receiver. */
module EndToEnd {
  import opened Buffers
  import opened Messages
  import opened Chunks
  import opened Frames
  import opened LazyCallReq
  import opened LazyRefinesEager
  import opened CallFrames
  import opened KeyVals
  import opened Arguments
  import opened RelayAppend
  import opened RelayedCall
  import OC = OutboundCall

  /** The frames of a message under a call request's header are a call with that request. */
  lemma SentIsCall(h: Digest, k: Kind, m: CallReq, order: seq<Bytes>, fragments: seq<Fragment>, args: seq<Chunk>)
    requires SumsSized(h) && Visits(m.headers, order) && CallReqFits(m) && IsMessage(h, k, fragments, args, false)
    ensures IsCall(h, k, MessagePayloads(EncodeCallReq(m, order), fragments), OnWire(m), args)
  {
    hide EncodeCallReq, FirstPayload, NextPayload, ParseInbound, ParseContinue, MessagePayloads, Chain, Glue,
      SumsSized, Visits, CallReqFits, WireSumSize, Seal, SplitAll, ReadCallReq;
    var fs := SplitAll(fragments);
    SealedSums(h, k, fs);
    ParseInboundOf(m, order, fragments[0]);
    PayloadsAt(EncodeCallReq(m, order), fragments);
    forall i | 1 <= i < |fragments|
      ensures ParseContinue(NextPayload(fragments[i])) == LazyCallReq.Ok(fragments[i])
    {
      ParseContinueOf(fragments[i]);
    }
    assert Decoded(MessagePayloads(EncodeCallReq(m, order), fragments)) == fragments;
  }

  /** Whether the relay refuses, in terms of what the caller wrote. */
  function Refusal(k: Kind, m: CallReq, order: seq<Bytes>, methodName: Bytes, arg2: seq<Op>, appends: seq<Pair>)
      : (e: SendError)
    requires Visits(m.headers, order)
  {
    if appends == [] then NoError
    else if !OC.Arg2InFirstFrame(k, m, order, methodName, arg2) then FragmentedArg2
    else if Get(m.headers, ARG_SCHEME) != THRIFT then ThriftOnly
    else if |ArgOf(arg2)| < 2 then NoCountInArg2
    else NoError
  }

  // The relay's own test comes to the same.
  lemma RefusalIs(k: Kind, m: CallReq, order: seq<Bytes>, f: Fragment, methodName: Bytes, arg2: seq<Op>,
                  appends: seq<Pair>)
    requires Visits(m.headers, order)
    requires OC.RelayCanParse(m, order, f, methodName, ArgOf(arg2), OC.Arg2InFirstFrame(k, m, order, methodName, arg2))
    ensures var p := FirstPayload(EncodeCallReq(m, order), f);
      && LazyParse(p).Ok? && LazyParse(p).value.arg2StartOffset <= LazyParse(p).value.arg2EndOffset <= |p|
      && Refusal(k, m, order, methodName, arg2, appends) == if appends == [] then NoError
        else AppendError(p, LazyParse(p).value)
  {
    hide FirstPayload, EncodeCallReq, LazyParse, ArgOf, OC.Arg2InFirstFrame, Arg2Of, Visits;
  }

  // The pairs the receiver finds: the old ones and the appended ones.
  ghost predicate PairsArrive(was: Collected, now: Collected, appends: seq<Pair>) {
    was.Pairs? ==>
      (now.Pairs? && now.ps == was.ps + appends <==> AppendsReadable(|was.ps|, was.rest, appends))
  }

  lemma RelayedPairs(arg2: Bytes, appends: seq<Pair>)
    requires appends != [] ==> |arg2| >= 2
    ensures PairsArrive(PairsIn(arg2), PairsIn(Relayed(arg2, appends)), appends)
  {
    hide PairsIn, WithAppends, EncodePairs;
    var c := PairsIn(arg2);
    if c.Pairs? {
      AtLeastTwo(arg2);
      if appends == [] {
        PairsInCount(arg2);
        EmptyPairs();
        assert c.ps + appends == c.ps;
      } else {
        AppendsKept(arg2, c.ps, c.rest, appends);
      }
    }
  }

  lemma AtLeastTwo(arg2: Bytes)
    requires PairsIn(arg2).Pairs?
    ensures |arg2| >= 2
  {
  }

  lemma PairsInCount(arg2: Bytes)
    requires PairsIn(arg2).Pairs?
    ensures |PairsIn(arg2).ps| < 0x1_0000
  {
    hide ReadPairs, EncodePairs, GetUint;
    AtLeastTwo(arg2);
    PairsInIsRead(arg2);
    hide PairsIn;
    PairsReadAreEncoded(RBuf(arg2[2..], false), 2, GetUint(arg2[..2]));
    LimitIsWidth();
    GetUintBounds(arg2[..2]);
  }

  /** Whatever is written as arg2 and arg3, however it is split into writes and flushes. The
      relay refuses exactly if it has pairs to append and arg2 with the start of arg3 does
      not fit the first frame unflushed, the argument scheme is not Thrift, or arg2 has no
      count. Otherwise the receiver gets the caller's request, with a time to live as the
      wire keeps it and capped by the relay, the method, arg2 with the appended pairs, and
      arg3; and it reads the old pairs followed by the appended ones exactly if the appends
      are readable. */
  method CallThroughRelay(h: Digest, k: Kind, m: CallReq, order: seq<Bytes>, methodName: Bytes, arg2: seq<Op>,
                          arg3: seq<Op>, appends: seq<Pair>, maxTimeout: nat)
      returns (err: SendError, got: CallReq, received: seq<Bytes>, complete: bool)
    requires SumsSized(h) && Visits(m.headers, order) && CallReqFits(m) && OC.FromCallOptions(m.headers)
    requires OC.ValidateCall(m.service, methodName, true) == OC.NoError
    requires Millis(maxTimeout) < Limit(4)
    ensures err == Refusal(k, m, order, methodName, arg2, appends)
    ensures err == NoError ==>
      && complete && got == OnWire(m).(ttl := RelayTTL(OnWire(m).ttl, maxTimeout))
      && (appends != [] ==> |ArgOf(arg2)| >= 2)
      && received == [methodName, Relayed(ArgOf(arg2), appends), ArgOf(arg3)]
      && PairsArrive(PairsIn(ArgOf(arg2)), PairsIn(received[1]), appends)
  {
    hide SumsSized, Visits, CallReqFits, OC.FromCallOptions, EncodeCallReq, IsMessage, IsCall, MessagePayloads,
      LazyParse, ArgOf, Relayed, RelayTTL, FirstPayload, Arg2Of, Limit, Millis, OnWire, PairsArrive, PairsIn,
      AppendError, Refusal, ParseInbound, StartsCall, Decodes, OC.Arg2InFirstFrame;
    var fragments := OC.SendCall(h, k, m, order, methodName, arg2, arg3);
    RefusalIs(k, m, order, fragments[0], methodName, arg2, appends);
    ghost var args := [methodName, ArgOf(arg2), ArgOf(arg3)];
    var payloads := MessagePayloads(EncodeCallReq(m, order), fragments);
    PayloadsAt(EncodeCallReq(m, order), fragments);
    SentIsCall(h, k, m, order, fragments, args);
    var p, l := payloads[0], LazyParse(payloads[0]).value;
    assert payloads == [p] + payloads[1..];
    var out;
    err, out := RelayCall(h, k, p, l, appends, payloads[1..], maxTimeout, OnWire(m), args);
    got, received, complete := m, [], false;
    if err == NoError {
      RelayedPairs(ArgOf(arg2), appends);
      WholeCallStarts(h, k, out, OnWire(m).(ttl := RelayTTL(OnWire(m).ttl, maxTimeout)),
                      [methodName, Relayed(ArgOf(arg2), appends), ArgOf(arg3)]);
      got, received, complete := ReceiveCall(h, out);
    }
  }
}

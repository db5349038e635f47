/**
 The scheduling loop of transcode: results of the decoding side are buffered until every output has
 been opened, then replayed, and the end of input forces outputs open.
 */
module TranscodeLoop {
  import opened Common

  /** A packet carries its own stream index; a blank packet has index 0. */
  datatype Packet = Packet(stream: int, id: int)
  const BLANK_PACKET := Packet(0, 0)

  datatype Frame = Frame(width: int, height: int, samples: int, id: int)
  const BLANK_FRAME := Frame(0, 0, 0, 0)

  datatype Ret = Ok | PacketOnly | Again | Eof | Error

  /** What process_in leaves behind: packet, frame, code and stream index. */
  datatype Result = Result(pkt: Packet, frame: Frame, ret: Ret, index: int)

  datatype Output = Output(initialized: bool, dv: bool, opens: bool)

  datatype Config = Config(vi: int, ai: int)

  // ---------- the frame queue ----------

  datatype Item = Item(pkt: Option<Packet>, frame: Option<Frame>, decoderReturn: Ret)

  class FrameQueue {
    var items: seq<Item>

    constructor ()
      ensures items == []
    {
      items := [];
    }

    method Write(pkt: Option<Packet>, frame: Option<Frame>, decoderReturn: Ret)
      modifies this
      ensures items == old(items) + [Item(pkt, frame, decoderReturn)]
    {
      items := items + [Item(pkt, frame, decoderReturn)];
    }

    /** The out-parameters are those of the caller, left as they are where the item has nothing. */
    method Read(frame0: Frame, pkt0: Packet, index0: int, ret0: Ret) returns (ok: bool, r: Result)
      modifies this
      ensures ok == (old(items) != [])
      ensures !ok ==> items == [] && r == Result(pkt0, frame0, ret0, index0)
      ensures ok ==>
                var item := old(items)[0];
                && items == old(items)[1..]
                && r.ret == item.decoderReturn
                && r.frame == (if item.frame.Some? then item.frame.value else frame0)
                && (if item.pkt.Some? then r.pkt == item.pkt.value && r.index == item.pkt.value.stream
                    else r.pkt == pkt0 && r.index == index0)
    {
      r := Result(pkt0, frame0, ret0, index0);
      ok := |items| > 0;
      if ok {
        var item := items[0];
        items := items[1..];
        if item.pkt.Some? {
          r := r.(index := item.pkt.value.stream, pkt := item.pkt.value);
        }
        if item.frame.Some? {
          r := r.(frame := item.frame.value);
        }
        r := r.(ret := item.decoderReturn);
      }
    }
  }

  // ---------- which results wait for the outputs ----------

  predicate AllReady(outputs: seq<Output>) {
    forall i :: 0 <= i < |outputs| ==> outputs[i].initialized
  }

  /** A result on which an unopened output is opened. */
  predicate Triggers(cfg: Config, o: Output, r: Result) {
    (cfg.vi >= 0 && r.index == cfg.vi) || cfg.vi < 0 || o.dv || r.ret == Eof
  }

  function OpenOne(cfg: Config, o: Output, r: Result): Output {
    if !o.initialized && Triggers(cfg, o, r) then o.(initialized := true) else o
  }

  function Opened(cfg: Config, outputs: seq<Output>, r: Result): (os: seq<Output>)
    ensures |os| == |outputs|
    ensures forall i :: 0 <= i < |outputs| ==> os[i] == OpenOne(cfg, outputs[i], r)
  {
    seq(|outputs|, i requires 0 <= i < |outputs| => OpenOne(cfg, outputs[i], r))
  }

  /** How many of the coming results are buffered: all up to the one that opens the last output. */
  function Buffered(cfg: Config, outputs: seq<Output>, rs: seq<Result>): (n: nat)
    ensures n <= |rs|
    decreases rs
  {
    if AllReady(outputs) || rs == [] then 0
    else 1 + Buffered(cfg, Opened(cfg, outputs, rs[0]), rs[1..])
  }

  predicate CanOpen(outputs: seq<Output>) {
    forall i :: 0 <= i < |outputs| ==> outputs[i].initialized || outputs[i].opens
  }

  // ---------- what the encode stage gets ----------

  /** Whether the frame of a result is worth keeping, by the kind of its stream. */
  predicate OutputFrame(cfg: Config, index: int, ret: Ret, frame: Frame) {
    && ret != PacketOnly
    && if index == cfg.vi then frame.width != 0 && frame.height != 0
       else if index == cfg.ai then frame.samples != 0
       else true
  }

  /** The frame if it is non-empty. */
  function Shown(cfg: Config, index: int, ret: Ret, frame: Frame): Frame {
    if OutputFrame(cfg, index, ret, frame) then frame else BLANK_FRAME
  }

  function ToItem(cfg: Config, r: Result): Item {
    Item(if r.ret == Eof then None else Some(r.pkt),
         if OutputFrame(cfg, r.index, r.ret, r.frame) then Some(r.frame) else None, r.ret)
  }

  /** Buffered results come back with an emptied frame and the index of their packet. */
  function Replayed(cfg: Config, r: Result): Result {
    if r.ret == Eof then Result(BLANK_PACKET, Shown(cfg, r.index, r.ret, r.frame), r.ret, -1)
    else Result(r.pkt, Shown(cfg, r.index, r.ret, r.frame), r.ret, r.pkt.stream)
  }

  /** The k-th result as the encode stage sees it, when the first n were buffered. */
  function Delivery(cfg: Config, rs: seq<Result>, n: nat, k: nat): Result
    requires k < |rs|
  {
    if k < n then Replayed(cfg, rs[k]) else rs[k]
  }

  predicate Delivers(cfg: Config, rs: seq<Result>, n: nat, encoded: seq<Result>) {
    && |encoded| <= |rs|
    && forall k :: 0 <= k < |encoded| ==> encoded[k] == Delivery(cfg, rs, n, k)
  }

  /** The queue holds results lo to hi. */
  predicate Holds(cfg: Config, rs: seq<Result>, lo: nat, hi: nat, items: seq<Item>) {
    && lo <= hi <= |rs| && |items| == hi - lo
    && forall i :: 0 <= i < |items| ==> items[i] == ToItem(cfg, rs[lo + i])
  }

  predicate NoErrors(rs: seq<Result>) {
    forall k :: 0 <= k < |rs| ==> rs[k].ret != Error
  }

  predicate NoEof(rs: seq<Result>) {
    forall k :: 0 <= k < |rs| ==> rs[k].ret != Eof
  }

  /** Results up to and including the first end of input. */
  predicate EndsOnce(rs: seq<Result>) {
    && rs != [] && NoEof(rs[..|rs| - 1])
    && rs[|rs| - 1].ret == Eof && rs[|rs| - 1].pkt == BLANK_PACKET
  }

  // ---------- lemmas for the loop ----------

  lemma HoldsMore(cfg: Config, rs: seq<Result>, hi: nat, items: seq<Item>)
    requires Holds(cfg, rs, 0, hi, items) && hi < |rs|
    ensures Holds(cfg, rs, 0, hi + 1, items + [ToItem(cfg, rs[hi])])
  {
  }

  lemma HoldsLess(cfg: Config, rs: seq<Result>, lo: nat, hi: nat, items: seq<Item>)
    requires Holds(cfg, rs, lo, hi, items) && lo < hi
    ensures items[0] == ToItem(cfg, rs[lo]) && Holds(cfg, rs, lo + 1, hi, items[1..])
  {
    var rest := items[1..];
    forall i | 0 <= i < |rest|
      ensures rest[i] == ToItem(cfg, rs[lo + 1 + i])
    {
      assert rest[i] == items[i + 1];
    }
  }

  lemma BufferedStep(cfg: Config, outputs: seq<Output>, rs: seq<Result>, pos: nat)
    requires pos < |rs| && !AllReady(outputs)
    ensures Buffered(cfg, outputs, rs[pos..]) == 1 + Buffered(cfg, Opened(cfg, outputs, rs[pos]), rs[pos + 1..])
  {
    assert rs[pos..][1..] == rs[pos + 1..];
  }

  lemma EofOpensAll(cfg: Config, outputs: seq<Output>, r: Result)
    requires r.ret == Eof
    ensures AllReady(Opened(cfg, outputs, r))
  {
  }

  lemma ReadyStays(cfg: Config, outputs: seq<Output>, r: Result)
    requires AllReady(outputs)
    ensures Opened(cfg, outputs, r) == outputs
  {
  }

  // ---------- the loop ----------

  /** One pass over the outputs; stops at one that cannot be opened. */
  method OpenOutputs(cfg: Config, outputs0: seq<Output>, r: Result)
    returns (ok: bool, outputs: seq<Output>, isReady: bool, setOutputs: bool)
    ensures ok ==> outputs == Opened(cfg, outputs0, r)
    ensures ok ==> isReady == AllReady(outputs) && setOutputs == !AllReady(outputs0)
    ensures CanOpen(outputs0) ==> ok
    ensures !ok ==> !CanOpen(outputs0)
    ensures ok ==> (CanOpen(outputs) <==> CanOpen(outputs0))
  {
    ok, outputs, isReady, setOutputs := true, outputs0, true, false;
    for i := 0 to |outputs0|
      invariant |outputs| == |outputs0|
      invariant forall j :: 0 <= j < |outputs0| ==>
                  outputs[j] == if j < i then OpenOne(cfg, outputs0[j], r) else outputs0[j]
      invariant forall j :: 0 <= j < i && Triggers(cfg, outputs0[j], r) ==>
                  outputs0[j].initialized || outputs0[j].opens
      invariant isReady == forall j :: 0 <= j < i ==> outputs[j].initialized
      invariant setOutputs == exists j :: 0 <= j < i && !outputs0[j].initialized
    {
      if !outputs[i].initialized {
        if Triggers(cfg, outputs[i], r) {
          if !outputs[i].opens {
            ok := false;
            return;
          }
          outputs := outputs[i := outputs[i].(initialized := true)];
        }
        setOutputs := true;
      }
      isReady := isReady && outputs[i].initialized;
    }
    assert ok ==> outputs == Opened(cfg, outputs0, r);
  }

  /** Before the outputs are ready everything read so far is in the queue and nothing was encoded. */
  ghost predicate Waiting(cfg: Config, all: seq<Result>, n: nat, outputs: seq<Output>, pos: nat,
      items: seq<Item>, encoded: seq<Result>) {
    && pos < |all| && encoded == [] && Holds(cfg, all, 0, pos, items)
    && n == pos + Buffered(cfg, outputs, all[pos..])
  }

  /** Afterwards the queue holds what is left of the first n, and no more is read until it is empty. */
  ghost predicate Serving(cfg: Config, all: seq<Result>, n: nat, pos: nat, items: seq<Item>, encoded: seq<Result>) {
    && Delivers(cfg, all, n, encoded)
    && pos <= |all|
    && (if |encoded| < n then pos == n && Holds(cfg, all, |encoded|, n, items)
        else pos == |encoded| && items == [])
    && (|encoded| == |all| ==> |all| == 1 && n == 0)
  }

  lemma WaitOn(cfg: Config, all: seq<Result>, n: nat, outputs: seq<Output>, pos: nat, items: seq<Item>)
    requires Waiting(cfg, all, n, outputs, pos, items, []) && !AllReady(outputs)
    requires pos + 1 < |all|
    ensures Waiting(cfg, all, n, Opened(cfg, outputs, all[pos]), pos + 1, items + [ToItem(cfg, all[pos])], [])
  {
    hide Buffered, Opened, ToItem;
    HoldsMore(cfg, all, pos, items);
    BufferedStep(cfg, outputs, all, pos);
  }

  lemma NoneBuffered(cfg: Config, outputs: seq<Output>, rs: seq<Result>)
    requires AllReady(outputs)
    ensures Buffered(cfg, outputs, rs) == 0
  {
  }

  lemma WaitOver(cfg: Config, all: seq<Result>, n: nat, outputs: seq<Output>, pos: nat, items: seq<Item>)
    requires Waiting(cfg, all, n, outputs, pos, items, []) && !AllReady(outputs)
    requires AllReady(Opened(cfg, outputs, all[pos]))
    ensures Serving(cfg, all, n, pos + 1, items + [ToItem(cfg, all[pos])], [])
  {
    hide Buffered, Opened, ToItem, AllReady;
    HoldsMore(cfg, all, pos, items);
    BufferedStep(cfg, outputs, all, pos);
    NoneBuffered(cfg, Opened(cfg, outputs, all[pos]), all[pos + 1..]);
  }

  lemma NoWait(cfg: Config, all: seq<Result>, n: nat, outputs: seq<Output>, items: seq<Item>)
    requires Waiting(cfg, all, n, outputs, 0, items, []) && AllReady(outputs)
    ensures n == 0 && items == [] && (|all| == 1 || all[0].ret != Eof ==> Serving(cfg, all, n, 1, [], [all[0]]))
  {
    hide Buffered, ToItem, AllReady;
    NoneBuffered(cfg, outputs, all[0..]);
  }

  /** What reading the queue yields. */
  lemma ServeBuffered(cfg: Config, all: seq<Result>, n: nat, pos: nat, items: seq<Item>, encoded: seq<Result>)
    requires Serving(cfg, all, n, pos, items, encoded) && items != []
    requires EndsOnce(all)
    ensures |encoded| < n == pos && items[0] == ToItem(cfg, all[|encoded|])
    ensures all[|encoded|].ret != Eof ==>
              Serving(cfg, all, n, pos, items[1..], encoded + [Replayed(cfg, all[|encoded|])])
  {
    hide ToItem, Replayed;
    HoldsLess(cfg, all, |encoded|, n, items);
  }

  lemma ServeDirect(cfg: Config, all: seq<Result>, n: nat, pos: nat, encoded: seq<Result>)
    requires Serving(cfg, all, n, pos, [], encoded) && pos + 1 < |all|
    ensures Serving(cfg, all, n, pos + 1, [], encoded + [all[pos]])
  {
    hide ToItem, Replayed;
  }

  /** The loop ends only on the end of input, with the queue down to that last entry. */
  lemma AtEof(cfg: Config, all: seq<Result>, n: nat, pos: nat, items: seq<Item>, encoded: seq<Result>)
    requires Serving(cfg, all, n, pos, items, encoded) && EndsOnce(all) && pos > 0
    requires if items == [] then pos + 1 >= |all| else |encoded| < |all| && all[|encoded|].ret == Eof
    ensures |items| <= 1 && pos + 1 >= |all| && Delivers(cfg, all, n, encoded)
    ensures |encoded| == if |all| == 1 && n == 0 then 1 else |all| - 1
  {
  }

  lemma SoFar(cfg: Config, all: seq<Result>, n: nat, pos: nat, items: seq<Item>, encoded: seq<Result>)
    requires encoded == [] || Serving(cfg, all, n, pos, items, encoded)
    ensures Delivers(cfg, all, n, encoded)
  {
  }

  lemma NoneBufferedIff(cfg: Config, outputs: seq<Output>, rs: seq<Result>)
    requires rs != []
    ensures Buffered(cfg, outputs, rs) == 0 <==> AllReady(outputs)
  {
  }

  lemma ReadyCanOpen(outputs: seq<Output>)
    requires AllReady(outputs)
    ensures CanOpen(outputs)
  {
  }

  /** Error codes met so far: none among the first pos results. */
  predicate NoErrorsBefore(rs: seq<Result>, pos: int) {
    forall k :: 0 <= k < pos && k < |rs| ==> rs[k].ret != Error
  }

  /** The result of one turn of reading: the next queue entry, or else what process_in returns. */
  ghost predicate IsNext(cfg: Config, all: seq<Result>, ready: bool, pos: nat, items: seq<Item>,
      encoded: seq<Result>, r: Result)
    requires all != []
  {
    if ready && items != [] then |encoded| < |all| && |encoded| < pos && r == Replayed(cfg, all[|encoded|])
    else r == all[if pos < |all| then pos else |all| - 1]
  }

  /** Reading a queue entry gives back the buffered result. */
  lemma ServedItem(cfg: Config, all: seq<Result>, n: nat, pos: nat, items: seq<Item>, encoded: seq<Result>, r: Result)
    requires Serving(cfg, all, n, pos, items, encoded) && EndsOnce(all)
    requires items != [] ==>
               && r.ret == items[0].decoderReturn
               && r.frame == (if items[0].frame.Some? then items[0].frame.value else BLANK_FRAME)
               && (if items[0].pkt.Some? then r.pkt == items[0].pkt.value && r.index == items[0].pkt.value.stream
                   else r.pkt == BLANK_PACKET && r.index == -1)
    ensures items != [] ==> IsNext(cfg, all, true, pos, items, encoded, r)
  {
    hide OutputFrame;
    if items != [] {
      HoldsLess(cfg, all, |encoded|, n, items);
    }
  }

  lemma NextIsEof(cfg: Config, all: seq<Result>, n: nat, pos: nat, items: seq<Item>, encoded: seq<Result>, r: Result)
    requires Serving(cfg, all, n, pos, items, encoded) && EndsOnce(all) && pos > 0
    requires IsNext(cfg, all, true, pos, items, encoded, r) && r.ret == Eof
    ensures |items| <= 1 && pos + 1 >= |all| && Delivers(cfg, all, n, encoded)
    ensures |encoded| == if |all| == 1 && n == 0 then 1 else |all| - 1
  {
    hide Delivers, Holds;
    AtEof(cfg, all, n, pos, items, encoded);
  }

  lemma NextIsError(cfg: Config, script: seq<Result>, eof: Result, ready: bool, pos: nat, items: seq<Item>,
      encoded: seq<Result>, r: Result)
    requires eof.ret == Eof && script + [eof] != [] && r.ret == Error
    requires IsNext(cfg, script + [eof], ready, pos, items, encoded, r)
    ensures !NoErrors(script)
  {
    var all := script + [eof];
    var k := if ready && items != [] then |encoded| else if pos < |all| then pos else |all| - 1;
    assert all[k].ret == Error;
    assert k < |script| && script[k].ret == Error;
  }

  lemma Served(cfg: Config, all: seq<Result>, n: nat, pos: nat, items: seq<Item>, encoded: seq<Result>, r: Result)
    requires Serving(cfg, all, n, pos, items, encoded) && EndsOnce(all)
    requires IsNext(cfg, all, true, pos, items, encoded, r) && r.ret != Eof
    ensures if items == [] then pos < |all| && r == all[pos] && Serving(cfg, all, n, pos + 1, [], encoded + [r])
            else Serving(cfg, all, n, pos, items[1..], encoded + [r])
  {
    hide Delivers, Holds;
    if items == [] {
      ServeDirect(cfg, all, n, pos, encoded);
    } else {
      ServeBuffered(cfg, all, n, pos, items, encoded);
    }
  }

  /** One turn while the outputs are not ready. */
  lemma Turned(cfg: Config, all: seq<Result>, n: nat, outputs: seq<Output>, pos: nat, items: seq<Item>)
    requires Waiting(cfg, all, n, outputs, pos, items, []) && EndsOnce(all)
    requires 0 < pos ==> !AllReady(outputs)
    ensures var os, items' := Opened(cfg, outputs, all[pos]), items + [ToItem(cfg, all[pos])];
            if AllReady(outputs) then pos == 0 && items == [] && os == outputs && Serving(cfg, all, n, 1, [], [all[0]])
            else if AllReady(os) then Serving(cfg, all, n, pos + 1, items', [])
            else pos + 1 < |all| && Waiting(cfg, all, n, os, pos + 1, items', [])
  {
    hide AllReady, Opened, Holds, ToItem, Buffered, Delivers;
    if AllReady(outputs) {
      NoWait(cfg, all, n, outputs, items);
      ReadyStays(cfg, outputs, all[pos]);
    } else if AllReady(Opened(cfg, outputs, all[pos])) {
      WaitOver(cfg, all, n, outputs, pos, items);
    } else {
      if all[pos].ret == Eof {
        EofOpensAll(cfg, outputs, all[pos]);
      }
      WaitOn(cfg, all, n, outputs, pos, items);
    }
  }

  lemma IsItem(cfg: Config, r: Result)
    ensures ToItem(cfg, r) == Item(if r.ret == Eof then None else Some(r.pkt),
                                   if OutputFrame(cfg, r.index, r.ret, r.frame) then Some(r.frame) else None, r.ret)
  {
  }

  /**
   script is what process_in will return before the end of input, eof what it returns from then on.
   encoded collects what enters the encode stage.
   */
  method Transcode(cfg: Config, outputs0: seq<Output>, script: seq<Result>, eof: Result)
    returns (finished: bool, encoded: seq<Result>, ghost left: seq<Item>)
    requires eof.ret == Eof && eof.pkt == BLANK_PACKET && NoEof(script)
    ensures finished <==> NoErrors(script) && CanOpen(outputs0)
    ensures Delivers(cfg, script + [eof], Buffered(cfg, outputs0, script + [eof]), encoded)
    ensures finished ==> |encoded| == if script == [] && AllReady(outputs0) then 1 else |script|
    ensures finished ==> left == []
  {
    hide Buffered, OutputFrame, Triggers, Waiting, Serving, AllReady, Opened, Holds, Delivers, CanOpen;
    hide Replayed, ToItem;
    ghost var all := script + [eof];
    ghost var n := Buffered(cfg, outputs0, all);
    assert all[..|script|] == script;
    Starts(cfg, all, outputs0);
    NoneBufferedIff(cfg, outputs0, all);
    var outputs := outputs0;
    var outputsReady, hitEof := false, false;
    var pos := 0;
    var queue := new FrameQueue();
    finished, encoded, left := false, [], [];
    while true
      invariant fresh(queue) && left == [] && !finished
      invariant pos <= |all| && (hitEof ==> outputsReady)
      invariant NoErrorsBefore(script, pos)
      invariant CanOpen(outputs) <==> CanOpen(outputs0)
      invariant !outputsReady ==> encoded == [] && pos < |all| && Waiting(cfg, all, n, outputs, pos, queue.items, [])
      invariant outputsReady ==> pos > 0 && AllReady(outputs) && Serving(cfg, all, n, pos, queue.items, encoded)
      invariant 0 < pos && !outputsReady ==> !AllReady(outputs)
      decreases 2 * (|all| + 1 - pos) + |queue.items|
    {
      ghost var pos0, items0, outs0 := pos, queue.items, outputs;
      var r := Result(BLANK_PACKET, BLANK_FRAME, Ok, -1);
      var queueOk := true;
      if outputsReady || hitEof {
        queueOk, r := queue.Read(BLANK_FRAME, BLANK_PACKET, -1, Ok);
        ServedItem(cfg, all, n, pos0, items0, encoded, r);
      }
      if !outputsReady || !queueOk {
        r := if pos < |script| then script[pos] else eof;
        pos := pos + 1;
      }
      assert IsNext(cfg, all, outputsReady, pos0, items0, encoded, r);
      if r.ret == Eof {
        if !outputsReady {
          hitEof := true;
        } else {
          NextIsEof(cfg, all, n, pos0, items0, encoded, r);
          ReadyCanOpen(outputs);
          finished := true;
          break;
        }
      } else if r.ret == Error {
        NextIsError(cfg, script, eof, outputsReady, pos0, items0, encoded, r);
        SoFar(cfg, all, n, pos0, items0, encoded);
        break;
      }
      var setOutputs := false;
      if !outputsReady {
        var ok;
        ok, outputs, outputsReady, setOutputs := OpenOutputs(cfg, outputs, r);
        if !ok {
          SoFar(cfg, all, n, pos0, items0, encoded);
          break;
        }
        Turned(cfg, all, n, outs0, pos0, items0);
      } else {
        Served(cfg, all, n, pos0, items0, encoded, r);
      }
      if setOutputs {
        var outputFrame := OutputFrame(cfg, r.index, r.ret, r.frame);
        queue.Write(if r.ret == Eof then None else Some(r.pkt),
                    if outputFrame then Some(r.frame) else None, r.ret);
        IsItem(cfg, r);
      } else {
        assert encoded == [] ==> encoded + [r] == [r];
        encoded := encoded + [r];
      }
    }
    left := queue.items;
  }

  lemma Starts(cfg: Config, all: seq<Result>, outputs: seq<Output>)
    requires all != []
    ensures Waiting(cfg, all, Buffered(cfg, outputs, all), outputs, 0, [], [])
  {
    assert all[0..] == all;
  }

  // ---------- what the loop guarantees ----------

  /**
   A frame with content: a picture with both sides, audio with samples, or anything on another stream,
   and not from a call that returned only a packet.
   */
  predicate HasContent(cfg: Config, r: Result) {
    && r.ret != PacketOnly
    && (r.index == cfg.vi ==> r.frame.width != 0 && r.frame.height != 0)
    && (r.index == cfg.ai && r.index != cfg.vi ==> r.frame.samples != 0)
  }

  /**
   Whatever iteration opens the outputs, the encode stage gets packet, non-empty frame and code of the
   k-th result as its k-th input. The stream index comes along exactly when the result was not
   buffered or is that of its packet.
   */
  lemma OnceInOrder(cfg: Config, outputs: seq<Output>, script: seq<Result>, eof: Result, encoded: seq<Result>, k: nat)
    requires NoEof(script) && k < |encoded| && k < |script|
    requires Delivers(cfg, script + [eof], Buffered(cfg, outputs, script + [eof]), encoded)
    ensures var r := script[k];
            && encoded[k].pkt == r.pkt && encoded[k].ret == r.ret
            && Shown(cfg, r.index, r.ret, encoded[k].frame) == Shown(cfg, r.index, r.ret, r.frame)
            && (HasContent(cfg, r) ==> encoded[k].frame == r.frame)
            && (k < Buffered(cfg, outputs, script + [eof]) && !HasContent(cfg, r) ==> encoded[k].frame == BLANK_FRAME)
            && (k >= Buffered(cfg, outputs, script + [eof]) ==> encoded[k] == r)
            && (encoded[k].index == r.index <==>
                  k >= Buffered(cfg, outputs, script + [eof]) || r.pkt.stream == r.index)
  {
    hide Buffered;
    assert (script + [eof])[k] == script[k];
  }

  /**
   With all outputs opened by an earlier call and an input that ends at once, the end of input itself
   enters the encode stage, with whatever index it carries; with nothing to drain that index is -1.
   */
  lemma EndEntersEncodeStage(cfg: Config, outputs: seq<Output>, eof: Result, encoded: seq<Result>)
    requires AllReady(outputs) && |encoded| == 1
    requires Delivers(cfg, [eof], Buffered(cfg, outputs, [eof]), encoded)
    ensures encoded == [eof]
  {
    NoneBuffered(cfg, outputs, [eof]);
  }

  /** In every other run that finishes only results before the end of input do. */
  lemma OtherwiseNoEnd(cfg: Config, outputs: seq<Output>, script: seq<Result>, eof: Result, encoded: seq<Result>)
    requires NoEof(script) && |encoded| == |script|
    requires Delivers(cfg, script + [eof], Buffered(cfg, outputs, script + [eof]), encoded)
    ensures NoEof(encoded)
  {
    hide Buffered;
    forall k | 0 <= k < |encoded|
      ensures encoded[k].ret != Eof
    {
      OnceInOrder(cfg, outputs, script, eof, encoded, k);
    }
  }

  /** A result that opens outputs that wait for video. */
  predicate Opens(cfg: Config, r: Result) {
    r.index == cfg.vi || r.ret == Eof
  }

  predicate NeedsVideo(cfg: Config, outputs: seq<Output>) {
    cfg.vi >= 0 && exists i :: 0 <= i < |outputs| && !outputs[i].initialized && !outputs[i].dv
  }

  lemma StillNeedsVideo(cfg: Config, outputs: seq<Output>, r: Result)
    requires NeedsVideo(cfg, outputs)
    ensures NeedsVideo(cfg, Opened(cfg, outputs, r)) <==> !Opens(cfg, r)
    ensures AllReady(Opened(cfg, outputs, r)) <==> Opens(cfg, r)
  {
    var os := Opened(cfg, outputs, r);
    var i :| 0 <= i < |outputs| && !outputs[i].initialized && !outputs[i].dv;
    assert os[i] == OpenOne(cfg, outputs[i], r);
  }

  /** Buffering lasts one result if no output waits for video, and otherwise up to the first video result. */
  lemma {:induction false} BufferedMeaning(cfg: Config, outputs: seq<Output>, rs: seq<Result>)
    requires !AllReady(outputs) && EndsOnce(rs)
    ensures var n := Buffered(cfg, outputs, rs);
            && n > 0
            && (!NeedsVideo(cfg, outputs) ==> n == 1)
            && (NeedsVideo(cfg, outputs) ==>
                  Opens(cfg, rs[n - 1]) && forall k :: 0 <= k < n - 1 ==> !Opens(cfg, rs[k]))
    decreases rs
  {
    hide AllReady, NeedsVideo, Opened;
    var os := Opened(cfg, outputs, rs[0]);
    NoneBufferedIff(cfg, outputs, rs);
    if NeedsVideo(cfg, outputs) {
      StillNeedsVideo(cfg, outputs, rs[0]);
      if !Opens(cfg, rs[0]) {
        RestEndsOnce(rs);
        BufferedMeaning(cfg, os, rs[1..]);
        var n := Buffered(cfg, outputs, rs);
        forall k | 0 <= k < n - 1
          ensures !Opens(cfg, rs[k])
        {
          assert k > 0 ==> rs[k] == rs[1..][k - 1];
        }
      } else {
        NoneBuffered(cfg, os, rs[1..]);
      }
    } else {
      AllOpenAtOnce(cfg, outputs, rs[0]);
      NoneBuffered(cfg, os, rs[1..]);
    }
  }

  lemma RestEndsOnce(rs: seq<Result>)
    requires EndsOnce(rs) && rs[0].ret != Eof
    ensures EndsOnce(rs[1..])
  {
    var front, rest := rs[..|rs| - 1], rs[1..];
    var short := rest[..|rest| - 1];
    forall k | 0 <= k < |short|
      ensures short[k].ret != Eof
    {
      assert rest[k] == front[k + 1];
    }
  }

  lemma AllOpenAtOnce(cfg: Config, outputs: seq<Output>, r: Result)
    requires !NeedsVideo(cfg, outputs)
    ensures AllReady(Opened(cfg, outputs, r))
  {
  }

  /**
   An index that is lost: audio frames drained from the decoder come without a packet. If the input's
   video stream yields nothing, they wait in the queue, come back under index 0, the video stream
   here, and are then judged by picture size and not encoded.
   */
  lemma DrainedAudioLosesIndex(eof: Result)
    requires eof.ret == Eof && eof.pkt == BLANK_PACKET
    ensures var cfg, outputs := Config(0, 1), [Output(false, false, true)];
            var drained := Result(BLANK_PACKET, Frame(0, 0, 1024, 9), Ok, 1);
            var rs := [Result(Packet(1, 7), BLANK_FRAME, PacketOnly, 1), drained, eof];
            var seen := Delivery(cfg, rs, Buffered(cfg, outputs, rs), 1);
            && OutputFrame(cfg, drained.index, drained.ret, drained.frame)
            && seen.frame == drained.frame && seen.index == cfg.vi
            && !OutputFrame(cfg, seen.index, seen.ret, seen.frame)
  {
    var cfg, outputs := Config(0, 1), [Output(false, false, true)];
    var drained := Result(BLANK_PACKET, Frame(0, 0, 1024, 9), Ok, 1);
    var rs := [Result(Packet(1, 7), BLANK_FRAME, PacketOnly, 1), drained, eof];
    assert !outputs[0].initialized && !outputs[0].dv;
    assert NeedsVideo(cfg, outputs);
    BufferedMeaning(cfg, outputs, rs);
    assert !Opens(cfg, rs[0]) && !Opens(cfg, rs[1]);
  }
}

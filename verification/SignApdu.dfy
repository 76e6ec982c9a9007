// `sign_apdu` as it is written: one stream after another is read with cursors and clones. It computes the run
// of the step machine.

module SignApdu {
  import opened Octets
  import opened Numbers
  import opened Interp
  import opened Screen
  import opened Transaction
  import opened Paths
  import opened Blocks
  import opened Signing
  import Keys
  import Addresses

  /** Outcome of one request for a block. */
  datatype Chunk =
    | Block(data: Bytes) // bytes taken from the block that was asked for
    | Missing            // the host does not have it
    | Terminated         // a wrong block or a wrong message: the request is over
    | Silence            // the host has not answered yet

  function Limited(data: Bytes, limit: Option<nat>): (r: Bytes)
    ensures r <= data
  {
    match limit
    case None => data
    case Some(n) => Take(data, n)
  }

  /** The cursor behind the bytes taken of this block; a used-up block is left at once. */
  function Moved(at: Cursor, b: Bytes, taken: nat): Cursor
    requires IsBlock(b)
  {
    if at.offset + taken < |Data(b)| then Cursor(at.head, at.offset + taken) else Past(b)
  }

  /** The host, as the replies it is going to send. */
  class HostIO {
    const h: Hash
    const replies: seq<Reply>
    var asked: nat

    ghost predicate Valid()
      reads this
    {
      asked <= |replies|
    }

    constructor (h: Hash, replies: seq<Reply>)
      ensures Valid() && asked == 0 && this.h == h && this.replies == replies
    {
      this.h, this.replies, this.asked := h, replies, 0;
    }
  }

  /** A stream over one parameter. Cloning it copies the cursor. */
  class ByteStream {
    const io: HostIO
    var at: Cursor

    constructor (io: HostIO, at: Cursor)
      ensures this.io == io && this.at == at
    {
      this.io, this.at := io, at;
    }

    method Clone() returns (copy: ByteStream)
      ensures fresh(copy) && copy.io == io && copy.at == at
    {
      copy := new ByteStream(io, at);
    }

    /** Asks for the block under the cursor and takes up to `limit` bytes of it, or all of it. */
    method ReadSome(limit: Option<nat>) returns (c: Chunk)
      requires io.Valid()
      modifies this`at, io`asked
      ensures io.Valid()
      ensures c.Silence? <==> old(io.asked) == |io.replies|
      ensures c.Silence? ==> io.asked == old(io.asked) && at == old(at)
      ensures !c.Silence? ==> io.asked == old(io.asked) + 1
      ensures !c.Silence? ==>
                match io.replies[old(io.asked)]
                case Unexpected => c == Terminated
                case Failure => c == Missing
                case Success(b) =>
                  if !Serves(io.h, old(at), b) then c == Terminated
                  else
                    var off := old(at).offset;
                    var got := Limited(Data(b)[off..], limit);
                    && c == Block(got)
                    && at == Moved(old(at), b, |got|)
    {
      if io.asked == |io.replies| {
        return Silence;
      }
      var reply := io.replies[io.asked];
      io.asked := io.asked + 1;
      if reply.Unexpected? {
        return Terminated;
      } else if reply.Failure? {
        return Missing;
      } else if !Serves(io.h, at, reply.block) {
        return Terminated;
      }
      var data := Data(reply.block);
      var consuming := Limited(data[at.offset..], limit);
      if at.offset + |consuming| < |data| {
        at := Cursor(at.head, at.offset + |consuming|);
      } else {
        at := Past(reply.block);
      }
      return Block(consuming);
    }
  }

  datatype Outcome = Signature(sig: Bytes) | Reply(reply: Bytes) | Rejected | Pending

  /** The outcome and the screen content a state of the machine stands for. */
  ghost predicate Shows(r: Run, out: Outcome, seen: seq<Prompt>) {
    match r
    case Waiting(_, _, _, _, _, _) => out == Pending
    case Signed(sig, _, _, _, _, shown) => out == Signature(sig) && seen == shown
    case Replied(reply, _, _, shown) => out == Reply(reply) && seen == shown
    case Refused(shown) => out == Rejected && seen == shown
  }

  lemma {:induction false} FoldNext(env: Env, setting: nat, req: Request, replies: seq<Reply>, k: nat)
    requires k < |replies|
    ensures var r := Fold(env, setting, req, replies[..k]);
            Fold(env, setting, req, replies[..k + 1]) ==
            if r.Waiting? then Step(env, setting, req, r, replies[k]) else r
  {
    assert replies[..k + 1][..k] == replies[..k];
  }

  lemma {:induction false} FoldOver(env: Env, setting: nat, req: Request, replies: seq<Reply>, k: nat)
    requires k <= |replies|
    ensures var r := Fold(env, setting, req, replies[..k]);
            !r.Waiting? || k == |replies| ==> Fold(env, setting, req, replies) == r
    decreases |replies| - k
  {
    if k == |replies| {
      assert replies[..k] == replies;
    } else {
      FoldNext(env, setting, req, replies, k);
      FoldOver(env, setting, req, replies, k + 1);
    }
  }

  /** The machine over the replies taken so far. */
  ghost function SoFar(env: Env, setting: nat, req: Request, io: HostIO): Run
    reads io
    requires io.Valid()
  {
    Fold(env, setting, req, io.replies[..io.asked])
  }

  /** The request ends here, or waits, with this outcome. */
  ghost predicate Ends(env: Env, setting: nat, req: Request, io: HostIO, out: Outcome, seen: seq<Prompt>) {
    Shows(Fold(env, setting, req, io.replies), out, seen)
  }

  /** At most one more reply has been taken. */
  lemma {:induction false} FoldReads(env: Env, setting: nat, req: Request, replies: seq<Reply>, k: nat, asked: nat)
    requires k <= asked <= |replies| && asked <= k + 1 && (asked == k ==> k == |replies|)
    ensures var r, r' := Fold(env, setting, req, replies[..k]), Fold(env, setting, req, replies[..asked]);
            && (asked == k + 1 ==> r' == if r.Waiting? then Step(env, setting, req, r, replies[k]) else r)
            && (!r'.Waiting? || asked == k ==> Fold(env, setting, req, replies) == r')
  {
    if asked == k + 1 { FoldNext(env, setting, req, replies, k); }
    FoldOver(env, setting, req, replies, asked);
  }

  // A block served to a stage that waits for it.

  lemma {:induction false} LengthServed(env: Env, setting: nat, req: Request, at: Cursor, trace: seq<Bytes>,
                                        buf: Bytes, b: Bytes)
    requires |buf| < LENGTH_BYTES && Serves(env.h, at, b)
    ensures var got := Limited(Data(b)[at.offset..], Some(LENGTH_BYTES - |buf|));
            var at' := Moved(at, b, |got|);
            var r := SettleLength(env, setting, req, at, trace, buf);
            r.Waiting? && Step(env, setting, req, r, Success(b)) ==
                          SettleLength(env, setting, req, at', trace + [b], buf + got)
  {
  }

  lemma {:induction false} LengthTaken(env: Env, setting: nat, req: Request, replies: seq<Reply>, k: nat, at: Cursor,
                                       trace: seq<Bytes>, buf: Bytes)
    requires k < |replies| && replies[k].Success? && |buf| < LENGTH_BYTES && Serves(env.h, at, replies[k].block)
    requires Fold(env, setting, req, replies[..k]) == SettleLength(env, setting, req, at, trace, buf)
    ensures var b := replies[k].block;
            var got := Limited(Data(b)[at.offset..], Some(LENGTH_BYTES - |buf|));
            var at' := Moved(at, b, |got|);
            Fold(env, setting, req, replies[..k + 1]) == SettleLength(env, setting, req, at', trace + [b], buf + got)
  {
    FoldNext(env, setting, req, replies, k);
    LengthServed(env, setting, req, at, trace, buf, replies[k].block);
  }

  /** Outside recognition a read that brings no block ends the request. */
  lemma {:induction false} FoldStops(env: Env, setting: nat, req: Request, replies: seq<Reply>, k: nat)
    requires k < |replies|
    requires var r := Fold(env, setting, req, replies[..k]);
             && r.Waiting? && !r.stage.RecogniseStage?
             && (replies[k].Success? ==> !Serves(env.h, r.at, replies[k].block))
    ensures Fold(env, setting, req, replies) == Refused(Fold(env, setting, req, replies[..k]).seen)
  {
    FoldNext(env, setting, req, replies, k);
    FoldOver(env, setting, req, replies, k + 1);
  }

  lemma {:induction false} PathServed(env: Env, setting: nat, req: Request, p: Progress, at: Cursor, trace: seq<Bytes>,
                                      buf: Bytes, b: Bytes)
    requires ParsePath(buf).Incomplete? && Serves(env.h, at, b)
    ensures var r := SettlePath(env, setting, p, at, trace, buf);
            r.Waiting? && Step(env, setting, req, r, Success(b)) ==
                          SettlePath(env, setting, p, Past(b), trace + [b], buf + Data(b)[at.offset..])
  {
  }

  lemma {:induction false} PathTaken(env: Env, setting: nat, req: Request, p: Progress, replies: seq<Reply>, k: nat,
                                       at: Cursor, trace: seq<Bytes>, buf: Bytes)
    requires k < |replies| && replies[k].Success? && ParsePath(buf).Incomplete?
    requires Serves(env.h, at, replies[k].block)
    requires Fold(env, setting, req, replies[..k]) == SettlePath(env, setting, p, at, trace, buf)
    ensures var b := replies[k].block;
            Fold(env, setting, req, replies[..k + 1]) ==
            SettlePath(env, setting, p, Past(b), trace + [b], buf + Data(b)[at.offset..])
  {
    FoldNext(env, setting, req, replies, k);
    PathServed(env, setting, req, p, at, trace, buf, replies[k].block);
  }

  lemma {:induction false} RecogniseServed(env: Env, setting: nat, req: Request, p: Progress, at: Cursor,
                                           trace: seq<Bytes>, buf: Bytes, b: Bytes)
    requires SilentPass(env, p, buf).Starved? && Serves(env.h, at, b)
    ensures var r := SettleRecognise(env, setting, p, at, trace, buf);
            r.Waiting? && Step(env, setting, req, r, Success(b)) ==
                          SettleRecognise(env, setting, p, Past(b), trace + [b], buf + Data(b)[at.offset..])
  {
  }

  lemma {:induction false} ShowServed(env: Env, setting: nat, req: Request, p: Progress, at: Cursor, trace: seq<Bytes>,
                                      buf: Bytes, b: Bytes)
    requires ShowPass(env, p, buf).Starved? && Serves(env.h, at, b)
    ensures var r := SettleShow(env, p, at, trace, buf);
            r.Waiting? && Step(env, setting, req, r, Success(b)) ==
                          SettleShow(env, p, Past(b), trace + [b], buf + Data(b)[at.offset..])
  {
  }

  lemma {:induction false} DigestServed(env: Env, setting: nat, req: Request, known: bool, p: Progress, at: Cursor,
                                        trace: seq<Bytes>, buf: Bytes, seen: seq<Prompt>, b: Bytes)
    requires |buf| < p.length && Serves(env.h, at, b)
    ensures var r := SettleDigest(env, known, p, at, trace, buf, seen);
            r.Waiting? && Step(env, setting, req, r, Success(b)) ==
                          SettleDigest(env, known, p, Past(b), trace + [b], buf + Data(b)[at.offset..], seen)
  {
  }

  lemma {:induction false} AddressServed(env: Env, setting: nat, req: Request, at: Cursor, trace: seq<Bytes>,
                                         buf: Bytes, b: Bytes)
    requires req.AddressRequest? && ParsePath(buf).Incomplete? && Serves(env.h, at, b)
    ensures var r := SettleAddress(env, req.verify, at, trace, buf);
            r.Waiting? && Step(env, setting, req, r, Success(b)) ==
                          SettleAddress(env, req.verify, Past(b), trace + [b], buf + Data(b)[at.offset..])
  {
  }

  lemma {:induction false} AddressTaken(env: Env, setting: nat, req: Request, replies: seq<Reply>, k: nat,
                                       at: Cursor, trace: seq<Bytes>, buf: Bytes)
    requires req.AddressRequest? && k < |replies| && replies[k].Success? && ParsePath(buf).Incomplete?
    requires Serves(env.h, at, replies[k].block)
    requires Fold(env, setting, req, replies[..k]) == SettleAddress(env, req.verify, at, trace, buf)
    ensures var b := replies[k].block;
            Fold(env, setting, req, replies[..k + 1]) ==
            SettleAddress(env, req.verify, Past(b), trace + [b], buf + Data(b)[at.offset..])
  {
    FoldNext(env, setting, req, replies, k);
    AddressServed(env, setting, req, at, trace, buf, replies[k].block);
  }

  /** One more block of the length. */
  method ReadMoreLength(env: Env, setting: nat, req: Request, io: HostIO, bs: ByteStream, buf: Bytes,
                        ghost trace: seq<Bytes>)
    returns (stop: Option<Outcome>, buf': Bytes, ghost trace': seq<Bytes>)
    requires io.Valid() && bs.io == io && io.h == env.h && |buf| < LENGTH_BYTES
    requires SoFar(env, setting, req, io) == SettleLength(env, setting, req, bs.at, trace, buf)
    modifies bs`at, io`asked
    ensures io.Valid() && old(io.asked) <= io.asked
    ensures stop.Some? ==> Ends(env, setting, req, io, stop.value, [])
    ensures stop.None? ==>
              && io.asked > old(io.asked) && |buf'| <= LENGTH_BYTES
              && SoFar(env, setting, req, io) == SettleLength(env, setting, req, bs.at, trace', buf')
  {
    FoldOver(env, setting, req, io.replies, io.asked);
    if AtEnd(bs.at) {
      return Some(Rejected), buf, trace;
    }
    ghost var k, before := io.asked, bs.at;
    var chunk := bs.ReadSome(Some(LENGTH_BYTES - |buf|));
    if chunk.Silence? {
      return Some(Pending), buf, trace;
    } else if !chunk.Block? {
      FoldStops(env, setting, req, io.replies, k);
      return Some(Rejected), buf, trace;
    }
    LengthTaken(env, setting, req, io.replies, k, before, trace, buf);
    assert io.asked == k + 1 && |chunk.data| <= LENGTH_BYTES - |buf|;
    return None, buf + chunk.data, trace + [io.replies[k].block];
  }

  /** Reads the length of the transaction off the first parameter, whose stream goes on behind it. */
  method ReadLength(env: Env, setting: nat, req: Request, io: HostIO, bs: ByteStream)
    returns (stop: Option<Outcome>, length: nat, ghost trace: seq<Bytes>)
    requires io.Valid() && bs.io == io && io.h == env.h
    requires req.SignRequest? && bs.at == Cursor(req.txn, 0)
    requires SoFar(env, setting, req, io) == Start(env, setting, req)
    modifies bs`at, io`asked
    ensures io.Valid()
    ensures stop.Some? ==> Ends(env, setting, req, io, stop.value, [])
    ensures stop.None? ==>
              SoFar(env, setting, req, io) ==
              StartPath(env, setting, req, FRESH.(length := length, txn := bs.at, lengthTrace := trace))
  {
    length, trace := 0, [];
    var buf: Bytes := [];
    while |buf| < LENGTH_BYTES
      invariant io.Valid() && |buf| <= LENGTH_BYTES
      invariant SoFar(env, setting, req, io) == SettleLength(env, setting, req, bs.at, trace, buf)
      decreases |io.replies| - io.asked
    {
      stop, buf, trace := ReadMoreLength(env, setting, req, io, bs, buf, trace);
      if stop.Some? {
        return;
      }
    }
    stop, length := None, LittleEndian(buf[..LENGTH_BYTES]);
  }

  /** One more block of the path. */
  method ReadMorePath(env: Env, setting: nat, req: Request, io: HostIO, bs: ByteStream, ghost p: Progress, buf: Bytes,
                      ghost trace: seq<Bytes>)
    returns (stop: Option<Outcome>, buf': Bytes, ghost trace': seq<Bytes>)
    requires io.Valid() && bs.io == io && io.h == env.h && ParsePath(buf).Incomplete?
    requires SoFar(env, setting, req, io) == SettlePath(env, setting, p, bs.at, trace, buf)
    modifies bs`at, io`asked
    ensures io.Valid() && old(io.asked) <= io.asked
    ensures stop.Some? ==> Ends(env, setting, req, io, stop.value, [])
    ensures stop.None? ==>
              && io.asked > old(io.asked)
              && SoFar(env, setting, req, io) == SettlePath(env, setting, p, bs.at, trace', buf')
  {
    FoldOver(env, setting, req, io.replies, io.asked);
    if AtEnd(bs.at) {
      return Some(Rejected), buf, trace;
    }
    ghost var k, before := io.asked, bs.at;
    var chunk := bs.ReadSome(None);
    if chunk.Silence? {
      return Some(Pending), buf, trace;
    } else if !chunk.Block? {
      FoldStops(env, setting, req, io.replies, k);
      return Some(Rejected), buf, trace;
    }
    PathTaken(env, setting, req, p, io.replies, k, before, trace, buf);
    assert io.asked == k + 1 && bs.at == Past(io.replies[k].block);
    return None, buf + chunk.data, trace + [io.replies[k].block];
  }

  method ReadPath(env: Env, setting: nat, req: Request, io: HostIO, bs: ByteStream, ghost p: Progress)
    returns (stop: Option<Outcome>, path: seq<nat>, ghost trace: seq<Bytes>)
    requires io.Valid() && bs.io == io && io.h == env.h
    requires bs.at == Cursor(req.path, 0) && SoFar(env, setting, req, io) == StartPath(env, setting, req, p)
    modifies bs`at, io`asked
    ensures io.Valid()
    ensures stop.Some? ==> Ends(env, setting, req, io, stop.value, [])
    ensures stop.None? ==>
              SoFar(env, setting, req, io) == StartRecognise(env, setting, p.(path := path, pathTrace := trace))
  {
    path, trace := [], [];
    var buf: Bytes := [];
    while ParsePath(buf).Incomplete?
      invariant io.Valid()
      invariant SoFar(env, setting, req, io) == SettlePath(env, setting, p, bs.at, trace, buf)
      decreases |io.replies| - io.asked
    {
      stop, buf, trace := ReadMorePath(env, setting, req, io, bs, p, buf, trace);
      if stop.Some? {
        return;
      }
    }
    FoldOver(env, setting, req, io.replies, io.asked);
    var read := ParsePath(buf);
    if read.TooLong? || !HasPrefix(read.steps) {
      return Some(Rejected), path, trace;
    }
    stop, path := None, read.steps;
  }

  /** The silent pass. A read that is not served makes the transaction an unknown one. */
  method Recognise(env: Env, setting: nat, req: Request, io: HostIO, bs: ByteStream, length: nat, ghost p: Progress)
    returns (stop: Option<Outcome>, knownTxn: bool, ghost trace: seq<Bytes>)
    requires io.Valid() && bs.io == io && io.h == env.h && p.length == length
    requires bs.at == p.txn && SoFar(env, setting, req, io) == StartRecognise(env, setting, p)
    modifies bs`at, io`asked
    ensures io.Valid()
    ensures stop.Some? ==> Ends(env, setting, req, io, stop.value, [])
    ensures stop.None? ==>
              SoFar(env, setting, req, io) ==
              if knownTxn then StartShow(env, p.(silentTrace := trace))
              else Unrecognised(env, setting, p.(silentTrace := trace))
  {
    knownTxn, trace := false, [];
    var buf: Bytes := [];
    var o: Out<seq<Prompt>> := Eval(env.lib, Silent(), TxnParser(), Take(buf, length), length, []);
    while o.Starved?
      invariant io.Valid() && o == SilentPass(env, p, buf)
      invariant SoFar(env, setting, req, io) == SettleRecognise(env, setting, p, bs.at, trace, buf)
      decreases |io.replies| - io.asked
    {
      FoldOver(env, setting, req, io.replies, io.asked);
      if AtEnd(bs.at) {
        return None, false, trace;
      }
      ghost var k, before := io.asked, bs.at;
      var chunk := bs.ReadSome(None);
      FoldReads(env, setting, req, io.replies, k, io.asked);
      if chunk.Silence? {
        return Some(Pending), false, trace;
      } else if chunk.Terminated? {
        return Some(Rejected), false, trace;
      } else if chunk.Missing? {
        return None, false, trace;
      }
      RecogniseServed(env, setting, req, p, before, trace, buf, io.replies[k].block);
      trace := trace + [io.replies[k].block];
      buf := buf + chunk.data;
      o := Eval(env.lib, Silent(), TxnParser(), Take(buf, length), length, []);
    }
    stop, knownTxn := None, o.Accept?;
  }

  /** The prompting pass. */
  method ShowTxn(env: Env, setting: nat, req: Request, io: HostIO, bs: ByteStream, length: nat, ghost p: Progress)
    returns (stop: Option<Outcome>, seen: seq<Prompt>, ghost trace: seq<Bytes>)
    requires io.Valid() && bs.io == io && io.h == env.h && p.length == length
    requires bs.at == p.txn && SoFar(env, setting, req, io) == StartShow(env, p)
    modifies bs`at, io`asked
    ensures io.Valid()
    ensures stop.Some? ==> Ends(env, setting, req, io, stop.value, seen)
    ensures stop.None? ==> SoFar(env, setting, req, io) == StartDigest(env, true, p.(showTrace := trace), seen)
  {
    trace := [];
    var buf: Bytes := [];
    var o := Eval(env.lib, Prompting(env.user), TxnParser(), Take(buf, length), length, []);
    while o.Starved?
      invariant io.Valid() && o == ShowPass(env, p, buf)
      invariant SoFar(env, setting, req, io) == SettleShow(env, p, bs.at, trace, buf)
      decreases |io.replies| - io.asked
    {
      FoldOver(env, setting, req, io.replies, io.asked);
      if AtEnd(bs.at) {
        return Some(Rejected), o.st, trace;
      }
      ghost var k, before := io.asked, bs.at;
      var chunk := bs.ReadSome(None);
      FoldReads(env, setting, req, io.replies, k, io.asked);
      if chunk.Silence? {
        return Some(Pending), o.st, trace;
      } else if !chunk.Block? {
        return Some(Rejected), o.st, trace;
      }
      ShowServed(env, setting, req, p, before, trace, buf, io.replies[k].block);
      trace := trace + [io.replies[k].block];
      buf := buf + chunk.data;
      o := Eval(env.lib, Prompting(env.user), TxnParser(), Take(buf, length), length, []);
    }
    FoldOver(env, setting, req, io.replies, io.asked);
    stop, seen := if o.Accept? then None else Some(Rejected), o.st;
  }

  /** Hashes the transaction. */
  method HashTxn(env: Env, setting: nat, req: Request, io: HostIO, bs: ByteStream, length: nat, knownTxn: bool,
                 ghost seen: seq<Prompt>, ghost p: Progress)
    returns (stop: Option<Outcome>, hash: Bytes, ghost trace: seq<Bytes>, ghost read: Bytes)
    requires io.Valid() && bs.io == io && io.h == env.h && p.length == length
    requires bs.at == p.txn && SoFar(env, setting, req, io) == StartDigest(env, knownTxn, p, seen)
    modifies bs`at, io`asked
    ensures io.Valid()
    ensures stop.Some? ==> Ends(env, setting, req, io, stop.value, seen)
    ensures stop.None? ==>
              && hash == env.h(Take(read, length))
              && SoFar(env, setting, req, io) == Finish(env, knownTxn, p, trace, read, seen)
  {
    hash, trace, read := [], [], [];
    var buf: Bytes := [];
    while |buf| < length
      invariant io.Valid()
      invariant SoFar(env, setting, req, io) == SettleDigest(env, knownTxn, p, bs.at, trace, buf, seen)
      decreases |io.replies| - io.asked
    {
      FoldOver(env, setting, req, io.replies, io.asked);
      if AtEnd(bs.at) {
        return Some(Rejected), hash, trace, read;
      }
      ghost var k, before := io.asked, bs.at;
      var chunk := bs.ReadSome(None);
      FoldReads(env, setting, req, io.replies, k, io.asked);
      if chunk.Silence? {
        return Some(Pending), hash, trace, read;
      } else if !chunk.Block? {
        return Some(Rejected), hash, trace, read;
      }
      DigestServed(env, setting, req, knownTxn, p, before, trace, buf, seen, io.replies[k].block);
      trace := trace + [io.replies[k].block];
      buf := buf + chunk.data;
    }
    stop, hash, read := None, env.h(Take(buf, length)), buf;
  }

  /** The parameters: length and position of the transaction, and the path. */
  method ReadParameters(env: Env, setting: nat, req: Request, io: HostIO, input0: ByteStream, input1: ByteStream)
    returns (stop: Option<Outcome>, length: nat, path: seq<nat>, ghost p: Progress)
    requires io.Valid() && input0.io == input1.io == io && input0 != input1 && io.h == env.h && req.SignRequest?
    requires input0.at == Cursor(req.txn, 0) && input1.at == Cursor(req.path, 0)
    requires SoFar(env, setting, req, io) == Start(env, setting, req)
    modifies input0`at, io`asked
    ensures io.Valid()
    ensures stop.Some? ==> Ends(env, setting, req, io, stop.value, [])
    ensures stop.None? ==>
              && p.length == length && p.path == path && p.txn == input0.at
              && SoFar(env, setting, req, io) == StartRecognise(env, setting, p)
  {
    ghost var trace;
    path, p := [], FRESH;
    stop, length, trace := ReadLength(env, setting, req, io, input0);
    if stop.Some? {
      return;
    }
    p := FRESH.(length := length, txn := input0.at, lengthTrace := trace);
    var bs := input1.Clone();
    stop, path, trace := ReadPath(env, setting, req, io, bs, p);
    p := p.(path := path, pathTrace := trace);
  }

  /** An unknown transaction: refused or announced, as the blind-signing setting says. */
  method WarnUnknown(env: Env, setting: nat, req: Request, io: HostIO, ghost p: Progress)
    returns (stop: Option<Outcome>, seen: seq<Prompt>)
    requires io.Valid() && SoFar(env, setting, req, io) == Unrecognised(env, setting, p)
    ensures stop.Some? ==> Ends(env, setting, req, io, stop.value, seen)
    ensures stop.None? ==> SoFar(env, setting, req, io) == StartDigest(env, false, p, seen)
  {
    FoldOver(env, setting, req, io.replies, io.asked);
    if setting == 0 {
      var refused := Scroller(env.user, [], WARNING, Some(Ascii(ENABLE_FIRST)));
      return Some(Rejected), refused.1;
    }
    var warned := Scroller(env.user, [], WARNING, Some(Ascii(NOT_RECOGNIZED)));
    stop, seen := if warned.0 then None else Some(Rejected), warned.1;
  }

  /** Recognition, and what it leads to: the transaction's own prompts, or the warning. */
  method Approve(env: Env, setting: nat, req: Request, io: HostIO, input0: ByteStream, length: nat, ghost p0: Progress)
    returns (stop: Option<Outcome>, knownTxn: bool, seen: seq<Prompt>, ghost p: Progress)
    requires io.Valid() && input0.io == io && io.h == env.h && p0.length == length && p0.txn == input0.at
    requires SoFar(env, setting, req, io) == StartRecognise(env, setting, p0)
    modifies io`asked
    ensures io.Valid()
    ensures stop.Some? ==> Ends(env, setting, req, io, stop.value, seen)
    ensures stop.None? ==>
              && p.length == length && p.path == p0.path && p.txn == input0.at
              && SoFar(env, setting, req, io) == StartDigest(env, knownTxn, p, seen)
  {
    ghost var trace;
    seen := [];
    var bs := input0.Clone();
    stop, knownTxn, trace := Recognise(env, setting, req, io, bs, length, p0);
    p := p0.(silentTrace := trace);
    if stop.Some? {
      return;
    }
    if knownTxn {
      bs := input0.Clone();
      stop, seen, trace := ShowTxn(env, setting, req, io, bs, length, p);
      p := p.(showTrace := trace);
    } else {
      stop, seen := WarnUnknown(env, setting, req, io, p);
    }
  }

  /** The last screens and the signature. */
  method Conclude(env: Env, setting: nat, req: Request, io: HostIO, path: seq<nat>, knownTxn: bool, hash: Bytes,
                  shown: seq<Prompt>, ghost p: Progress, ghost trace: seq<Bytes>, ghost read: Bytes)
    returns (out: Outcome, seen: seq<Prompt>)
    requires io.Valid() && p.path == path && hash == env.h(Take(read, p.length))
    requires SoFar(env, setting, req, io) == Finish(env, knownTxn, p, trace, read, shown)
    ensures Ends(env, setting, req, io, out, seen)
  {
    FoldOver(env, setting, req, io.replies, io.asked);
    seen := shown;
    if !knownTxn {
      var hashShown := Scroller(env.user, seen, "Transaction Hash", Some(env.base64(hash)));
      seen := hashShown.1;
      if !hashShown.0 {
        return Rejected, seen;
      }
    }
    var final := FinalPrompt(env.user, seen, [FinalLine(knownTxn)]);
    seen := final.1;
    if !final.0 {
      return Rejected, seen;
    }
    var signed := env.sign(path, hash);
    if signed.None? {
      return Rejected, seen;
    }
    var sig := Keys.FormatSignature(signed.value);
    if sig.None? {
      return Rejected, seen;
    }
    return Signature(sig.value), seen;
  }

  /** Signing a request against a host that sends these replies: the same outcome, and the same prompts on the
      screen, as the step machine has for them. */
  method Sign(env: Env, setting: nat, req: Request, replies: seq<Reply>)
    returns (out: Outcome, seen: seq<Prompt>)
    requires req.SignRequest?
    ensures Shows(Fold(env, setting, req, replies), out, seen)
  {
    var io := new HostIO(env.h, replies);
    var input0 := new ByteStream(io, Cursor(req.txn, 0));
    var input1 := new ByteStream(io, Cursor(req.path, 0));
    assert replies[..0] == [];
    ghost var trace, read, p, q;
    var stop, length, path, knownTxn, hash;

    stop, length, path, p := ReadParameters(env, setting, req, io, input0, input1);
    if stop.Some? {
      return stop.value, [];
    }
    stop, knownTxn, seen, q := Approve(env, setting, req, io, input0, length, p);
    if stop.Some? {
      return stop.value, seen;
    }
    var bs := input0.Clone();
    stop, hash, trace, read := HashTxn(env, setting, req, io, bs, length, knownTxn, seen, q);
    if stop.Some? {
      return stop.value, seen;
    }
    out, seen := Conclude(env, setting, req, io, path, knownTxn, hash, seen, q, trace, read);
  }

  // ---------------------------------------------------------------- addresses

  /** The same for an address request. */
  method ReadMoreAddress(env: Env, setting: nat, req: Request, io: HostIO, bs: ByteStream, buf: Bytes,
                      ghost trace: seq<Bytes>)
    returns (stop: Option<Outcome>, buf': Bytes, ghost trace': seq<Bytes>)
    requires io.Valid() && bs.io == io && io.h == env.h && req.AddressRequest? && ParsePath(buf).Incomplete?
    requires SoFar(env, setting, req, io) == SettleAddress(env, req.verify, bs.at, trace, buf)
    modifies bs`at, io`asked
    ensures io.Valid() && old(io.asked) <= io.asked
    ensures stop.Some? ==> Ends(env, setting, req, io, stop.value, [])
    ensures stop.None? ==>
              && io.asked > old(io.asked)
              && SoFar(env, setting, req, io) == SettleAddress(env, req.verify, bs.at, trace', buf')
  {
    FoldOver(env, setting, req, io.replies, io.asked);
    if AtEnd(bs.at) {
      return Some(Rejected), buf, trace;
    }
    ghost var k, before := io.asked, bs.at;
    var chunk := bs.ReadSome(None);
    if chunk.Silence? {
      return Some(Pending), buf, trace;
    } else if !chunk.Block? {
      FoldStops(env, setting, req, io.replies, k);
      return Some(Rejected), buf, trace;
    }
    AddressTaken(env, setting, req, io.replies, k, before, trace, buf);
    assert io.asked == k + 1 && bs.at == Past(io.replies[k].block);
    return None, buf + chunk.data, trace + [io.replies[k].block];
  }

  method ReadAddressPath(env: Env, setting: nat, req: Request, io: HostIO, bs: ByteStream)
    returns (stop: Option<Outcome>, path: seq<nat>, ghost trace: seq<Bytes>)
    requires io.Valid() && bs.io == io && io.h == env.h
    requires req.AddressRequest? && bs.at == Cursor(req.path, 0)
    requires SoFar(env, setting, req, io) == Start(env, setting, req)
    modifies bs`at, io`asked
    ensures io.Valid()
    ensures stop.Some? ==> Ends(env, setting, req, io, stop.value, [])
    ensures stop.None? ==> SoFar(env, setting, req, io) == Answer(env, path, req.verify, trace)
  {
    path, trace := [], [];
    var buf: Bytes := [];
    while ParsePath(buf).Incomplete?
      invariant io.Valid()
      invariant SoFar(env, setting, req, io) == SettleAddress(env, req.verify, bs.at, trace, buf)
      decreases |io.replies| - io.asked
    {
      stop, buf, trace := ReadMoreAddress(env, setting, req, io, bs, buf, trace);
      if stop.Some? {
        return;
      }
    }
    FoldOver(env, setting, req, io.replies, io.asked);
    var read := ParsePath(buf);
    if read.TooLong? || !HasPrefix(read.steps) {
      return Some(Rejected), path, trace;
    }
    stop, path := None, read.steps;
  }

  /** The key, its address, the prompts for it and the reply. */
  method GiveAddress(env: Env, path: seq<nat>, prompt: bool, ghost trace: seq<Bytes>)
    returns (r: (Outcome, seq<Prompt>))
    ensures Shows(Answer(env, path, prompt, trace), r.0, r.1)
  {
    var point := env.point(path);
    if point.None? {
      return (Rejected, []);
    }
    var uncompressed := new Byte[Keys.POINT_LENGTH](i requires 0 <= i < Keys.POINT_LENGTH => point.value[i]);
    assert uncompressed[..] == point.value;
    var compressed := Keys.CompressPublicKey(uncompressed);
    var pubkey := compressed[..];
    var pkh := env.pkh(pubkey);
    if pkh.None? {
      return (Rejected, []);
    }
    var text := Addresses.AddressText(env.checksum, pkh.value);
    var seen := [];
    if prompt {
      var shown := Scroller(env.user, seen, "Provide Public Key", Some([]));
      shown := Scroller(env.user, shown.1, "Address", Some(text));
      shown := FinalPrompt(env.user, shown.1, []);
      seen := shown.1;
    }
    var rv := Addresses.AddToReply(pubkey, text);
    if rv.None? {
      return (Rejected, seen);
    }
    return (Reply(rv.value), seen);
  }

  /** `get_address_apdu` against a host that sends these replies. */
  method GetAddress(env: Env, setting: nat, req: Request, replies: seq<Reply>)
    returns (out: Outcome, seen: seq<Prompt>)
    requires req.AddressRequest?
    ensures Shows(Fold(env, setting, req, replies), out, seen)
  {
    var io := new HostIO(env.h, replies);
    var input := new ByteStream(io, Cursor(req.path, 0));
    assert replies[..0] == [];
    ghost var trace;
    var stop, path;
    var bs := input.Clone();
    stop, path, trace := ReadAddressPath(env, setting, req, io, bs);
    if stop.Some? {
      return stop.value, [];
    }
    FoldOver(env, setting, req, io.replies, io.asked);
    var r := GiveAddress(env, path, req.verify, trace);
    return r.0, r.1;
  }
}

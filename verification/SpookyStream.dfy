/** The streaming interface: spooky_init, spooky_update and spooky_final keep a
    stash of unmixed bytes between calls, and yet report the one-call hash. */
module SpookyStream {
  import opened Words
  import opened SpookyMixing
  import opened Spooky

  const MAX_LENGTH := 0x1_0000_0000_0000_0000

  /** How much of a message of the given length has been mixed in when left bytes of it are stashed:
      nothing before the first overflow, whole blocks afterwards. */
  predicate Stashed(length: nat, left: nat) {
    left <= length && left < SC_BUFSIZE &&
    if length < SC_BUFSIZE then left == length else (length - left) % SC_BLOCKSIZE == 0
  }

  method MemCpy<T>(dst: array<T>, at: nat, src: seq<T>)
    requires at + |src| <= dst.Length
    modifies dst
    ensures dst[..] == old(dst[..at]) + src + old(dst[at + |src|..])
  {
    forall k | 0 <= k < |src| {
      dst[at + k] := src[k];
    }
  }

  /** Completes the tail bytes from index at on to a last block. */
  method PadBlock(data: array<Byte>, at: nat, tail: nat)
    requires tail < SC_BLOCKSIZE && at + SC_BLOCKSIZE <= data.Length
    modifies data
    ensures data[at..at + SC_BLOCKSIZE] == LastBlock(old(data[at..at + tail]))
    ensures data[..at + tail] == old(data[..at + tail])
  {
    hide LengthMark;
    MemCpy(data, at + tail, Zeros(SC_BLOCKSIZE - tail));
    data[at + SC_BLOCKSIZE - 1] := LengthMark(tail);
  }

  class SpookyState {
    const data: array<Byte>  // the stash: its first left bytes await mixing
    const state: array<bv64> // the seeds until the first overflow, then the registers
    var length: nat          // bytes fed, mixed or not
    var left: nat            // bytes in the stash; below 192, so a byte holds it

    ghost var seed1: bv64
    ghost var seed2: bv64
    ghost var fed: seq<Byte> // what has been fed since Init

    ghost predicate Valid()
      reads this, data, state
    {
      data.Length == SC_BUFSIZE && state.Length == SC_NUMVARS &&
      |fed| == length < MAX_LENGTH && Stashed(length, left) &&
      data[..left] == fed[length - left..] &&
      (length < SC_BUFSIZE ==> state[0] == seed1 && state[1] == seed2) &&
      (length >= SC_BUFSIZE ==> state[..] == MixBlocks(fed[..length - left], LongInit(seed1, seed2)))
    }

    /** Storage only; the C struct starts out uninitialised. */
    constructor ()
      ensures data.Length == SC_BUFSIZE && state.Length == SC_NUMVARS
      ensures fresh(data) && fresh(state)
    {
      data := new Byte[SC_BUFSIZE];
      state := new bv64[SC_NUMVARS];
    }

    /** spooky_init */
    method Init(seed1: bv64, seed2: bv64)
      requires data.Length == SC_BUFSIZE && state.Length == SC_NUMVARS
      modifies this, state
      ensures Valid() && fed == [] && this.seed1 == seed1 && this.seed2 == seed2
    {
      length := 0;
      left := 0;
      state[0] := seed1;
      state[1] := seed2;
      this.seed1, this.seed2, fed := seed1, seed2, [];
    }

    /** The words mixed so far, or the seeds spread out before the first overflow. */
    method LoadVars(h: array<bv64>)
      requires Valid() && h.Length == SC_NUMVARS && h != state
      modifies h
      ensures h[..] == MixBlocks(fed[..length - left], LongInit(seed1, seed2))
    {
      hide MixBlocks;
      if length < SC_BUFSIZE {
        Spread(state[0], state[1], SC_CONST, h);
        MixBlocksNone(fed[..length - left], LongInit(seed1, seed2));
      } else {
        MemCpy(h, 0, state[..]);
      }
    }

    /** Fills the stash up to two blocks and mixes both. */
    method MixStash(prefix: seq<Byte>, h: array<bv64>)
      requires Valid() && |prefix| == SC_BUFSIZE - left && h.Length == SC_NUMVARS && h != state
      requires h[..] == MixBlocks(fed[..length - left], LongInit(seed1, seed2))
      modifies data, h
      ensures h[..] == MixBlocks(fed + prefix, LongInit(seed1, seed2))
    {
      hide MixBlocks, Mix, ReadBlock;
      ghost var init := LongInit(seed1, seed2);
      ghost var all := fed + prefix;
      ghost var mixed := length - left;
      MemCpy(data, left, prefix);
      assert data[..] == all[mixed..];
      assert data[..SC_BLOCKSIZE] == all[mixed..mixed + SC_BLOCKSIZE];
      assert data[SC_BLOCKSIZE..] == all[mixed + SC_BLOCKSIZE..mixed + SC_BUFSIZE];
      assert all[..mixed] == fed[..mixed];
      assert all[..mixed + SC_BUFSIZE] == all;
      MixBlocksNext(all, mixed, init);
      MixBlocksNext(all, mixed + SC_BLOCKSIZE, init);
      MixInPlace(data[..SC_BLOCKSIZE], h);
      MixInPlace(data[SC_BLOCKSIZE..], h);
    }

    /** spooky_update */
    method Update(message: seq<Byte>)
      requires Valid() && length + |message| < MAX_LENGTH
      modifies this, data, state
      ensures Valid() && fed == old(fed) + message && seed1 == old(seed1) && seed2 == old(seed2)
    {
      hide MixBlocks, InThrees;
      var newLength := |message| + left;
      if newLength < SC_BUFSIZE {
        assert (fed + message)[..length - left] == fed[..length - left];
        MemCpy(data, left, message);
        length := |message| + length;
        left := newLength;
        fed := fed + message;
      } else {
        Overflow(message);
      }
    }

    /** spooky_update on a fragment that does not fit into the stash. */
    method Overflow(message: seq<Byte>)
      requires Valid() && length + |message| < MAX_LENGTH && |message| + left >= SC_BUFSIZE
      modifies this, data, state
      ensures Valid() && fed == old(fed) + message && seed1 == old(seed1) && seed2 == old(seed2)
    {
      hide MixBlocks, InThrees;
      var h := new bv64[SC_NUMVARS];
      var end := MixFragment(message, h);
      Stash(message[end..], h);
      ghost var before := |fed|;
      fed := fed + message;
      length := |message| + length;
      assert length - left == before + end;
    }

    /** Keeps the rest of a fragment in the stash and the registers in the state. */
    method Stash(rest: seq<Byte>, h: array<bv64>)
      requires data.Length == SC_BUFSIZE && state.Length == SC_NUMVARS == h.Length && h != state
      requires |rest| < SC_BLOCKSIZE
      modifies `left, data, state
      ensures left == |rest| && data[..left] == rest && state[..] == old(h[..])
    {
      left := |rest|;
      MemCpy(data, 0, rest);
      MemCpy(state, 0, h[..]);
    }

    /** Mixes the stash and the whole blocks that follow it in the message. */
    method MixFragment(message: seq<Byte>, h: array<bv64>) returns (end: nat)
      requires Valid() && |message| + left >= SC_BUFSIZE && h.Length == SC_NUMVARS && h != state
      modifies data, h
      ensures end <= |message| && Stashed(|fed| + |message|, |message| - end) && |message| - end < SC_BLOCKSIZE
      ensures (fed + message)[|fed| + end..] == message[end..]
      ensures h[..] == MixBlocks((fed + message)[..|fed| + end], LongInit(seed1, seed2))
    {
      hide MixBlocks, InThrees;
      LoadVars(h);
      var u := 0;
      if left != 0 {
        u := SC_BUFSIZE - left;
        MixStash(message[..u], h);
      }
      end := MixWholeBlocks(message, u, h);
      OverflowSplit(fed, left, message, u, end);
      MixBlocksConcat(fed + message[..u], message[u..end], LongInit(seed1, seed2));
    }

    /** spooky_final. It pads the live stash, but only beyond the stashed bytes. */
    method Final() returns (hash1: bv64, hash2: bv64)
      requires Valid()
      modifies data
      ensures Valid() && Hash128(hash1, hash2) == Hash(fed, seed1, seed2)
    {
      hide MixBlocks, ShortState;
      if length < SC_BUFSIZE {
        assert data[..length] == fed;
        hash1, hash2 := SpookyShort(data[..length], state[0], state[1]);
        assert [hash1, hash2][0] == hash1 && [hash1, hash2][1] == hash2;
        return;
      }
      var h := new bv64[SC_NUMVARS];
      MemCpy(h, 0, state[..]);
      FinishStash(h);
      hash1, hash2 := h[0], h[1];
    }

    method FinishStash(h: array<bv64>)
      requires Valid() && length >= SC_BUFSIZE && h.Length == SC_NUMVARS && h != state && h[..] == state[..]
      modifies data, h
      ensures Valid() && h[..] == LongState(fed, seed1, seed2)
    {
      hide Mix, ReadBlock, MixBlocks, End, LastBlock;
      ghost var stash := data[..left];
      SplitStash(fed, stash, LongInit(seed1, seed2));
      var at := 0;
      var tail := left;

      if tail >= SC_BLOCKSIZE {
        assert data[..SC_BLOCKSIZE] == stash[..SC_BLOCKSIZE];
        MixInPlace(data[..SC_BLOCKSIZE], h);
        at := SC_BLOCKSIZE;
        tail := tail - SC_BLOCKSIZE;
      }

      assert data[at..at + tail] == stash[at..];
      PadBlock(data, at, tail);

      Finish(data[at..at + SC_BLOCKSIZE], h);
    }
  }

  /** The stash filled up from the message, the message's own whole blocks and what is
      left over make up everything fed. */
  lemma OverflowSplit(fed: seq<Byte>, left: nat, message: seq<Byte>, u: nat, end: nat)
    requires Stashed(|fed|, left) && |message| + left >= SC_BUFSIZE
    requires u == if left != 0 then SC_BUFSIZE - left else 0
    requires end == u + (|message| - u) / SC_BLOCKSIZE * SC_BLOCKSIZE
    ensures u <= end <= |message| && Stashed(|fed| + |message|, |message| - end)
    ensures (|fed| + u) % SC_BLOCKSIZE == 0
    ensures left == 0 ==> fed[..|fed| - left] == fed + message[..u]
    ensures (fed + message)[..|fed| + end] == fed + message[..u] + message[u..end]
    ensures (fed + message)[|fed| + end..] == message[end..]
  {
  }

  /** A stash of one block or more still holds a whole block of the message. */
  lemma SplitStash(fed: seq<Byte>, stash: seq<Byte>, init: seq<bv64>)
    requires |stash| < SC_BUFSIZE && |stash| <= |fed| && (|fed| - |stash|) % SC_BLOCKSIZE == 0
    requires stash == fed[|fed| - |stash|..] && |init| == 12
    ensures var k := |fed| / SC_BLOCKSIZE * SC_BLOCKSIZE;
            var g := MixBlocks(fed[..|fed| - |stash|], init);
            if |stash| >= SC_BLOCKSIZE
            then fed[k..] == stash[SC_BLOCKSIZE..] &&
                 MixBlocks(fed[..k], init) == Mix(ReadBlock(stash[..SC_BLOCKSIZE]), g)
            else fed[k..] == stash && MixBlocks(fed[..k], init) == g
  {
    hide Mix, ReadBlock, MixBlocks;
    if |stash| >= SC_BLOCKSIZE {
      var mixed := |fed| - |stash|;
      assert stash[..SC_BLOCKSIZE] == fed[mixed..mixed + SC_BLOCKSIZE];
      MixBlocksNext(fed, mixed, init);
    }
  }

  lemma MixBlocksNone(m: seq<Byte>, h: seq<bv64>)
    requires m == [] && |h| == 12
    ensures MixBlocks(m, h) == h
  {
  }

  // ---------------------------------------------------------------- whole sessions

  /** What a client does with a stream: feed a fragment, or ask for the hash so far. */
  datatype Call = Feed(fragment: seq<Byte>) | Report

  function Fed(calls: seq<Call>): seq<Byte> {
    if calls == [] then []
    else
      var last := calls[|calls| - 1];
      Fed(calls[..|calls| - 1]) + if last.Feed? then last.fragment else []
  }

  /** The one-call hash of everything fed before each report. */
  function Reports(calls: seq<Call>, seed1: bv64, seed2: bv64): seq<Hash128>
    requires |Fed(calls)| < MAX_LENGTH
  {
    if calls == [] then []
    else
      var before := calls[..|calls| - 1];
      Reports(before, seed1, seed2) + if calls[|calls| - 1].Report? then [Hash(Fed(before), seed1, seed2)] else []
  }

  lemma {:induction false} FedGrows(calls: seq<Call>, k: nat)
    requires k <= |calls|
    ensures |Fed(calls[..k])| <= |Fed(calls)|
    decreases |calls|
  {
    if k < |calls| {
      var before := calls[..|calls| - 1];
      assert before[..k] == calls[..k];
      FedGrows(before, k);
    } else {
      assert calls[..k] == calls;
    }
  }

  /** Any interleaving of updates and finals reports the one-call hash of all bytes fed
      so far, every time. */
  method Session(seed1: bv64, seed2: bv64, calls: seq<Call>) returns (reports: seq<Hash128>)
    requires |Fed(calls)| < MAX_LENGTH
    ensures reports == Reports(calls, seed1, seed2)
  {
    hide Hash, MixBlocks, InThrees, Stashed;
    var s := new SpookyState();
    s.Init(seed1, seed2);
    reports := [];
    FedGrows(calls, 0);
    for i := 0 to |calls|
      invariant fresh(s) && fresh(s.data) && fresh(s.state)
      invariant s.Valid() && s.seed1 == seed1 && s.seed2 == seed2 && s.fed == Fed(calls[..i])
      invariant |Fed(calls[..i])| < MAX_LENGTH && reports == Reports(calls[..i], seed1, seed2)
    {
      FedGrows(calls, i + 1);
      assert calls[..i + 1][..i] == calls[..i];
      match calls[i] {
        case Feed(fragment) =>
          s.Update(fragment);
        case Report =>
          var hash1, hash2 := s.Final();
          reports := reports + [Hash128(hash1, hash2)];
      }
    }
    assert calls[..|calls|] == calls;
  }

  function Joined(fragments: seq<seq<Byte>>): seq<Byte> {
    if fragments == [] then [] else fragments[0] + Joined(fragments[1..])
  }

  /** Streaming is one-shot hashing, however the message is cut. */
  method HashFragments(seed1: bv64, seed2: bv64, fragments: seq<seq<Byte>>) returns (hash1: bv64, hash2: bv64)
    requires |Joined(fragments)| < MAX_LENGTH
    ensures Hash128(hash1, hash2) == Hash(Joined(fragments), seed1, seed2)
  {
    hide Hash, MixBlocks, InThrees, Stashed;
    var s := new SpookyState();
    s.Init(seed1, seed2);
    for i := 0 to |fragments|
      invariant fresh(s) && fresh(s.data) && fresh(s.state)
      invariant s.Valid() && s.seed1 == seed1 && s.seed2 == seed2
      invariant s.fed + Joined(fragments[i..]) == Joined(fragments)
    {
      assert Joined(fragments[i..]) == fragments[i] + Joined(fragments[i + 1..]) by {
        assert fragments[i..][1..] == fragments[i + 1..];
      }
      assert s.fed + (fragments[i] + Joined(fragments[i + 1..])) == s.fed + fragments[i] + Joined(fragments[i + 1..]);
      s.Update(fragments[i]);
    }
    assert s.fed + Joined(fragments[|fragments|..]) == s.fed;
    hash1, hash2 := s.Final();
  }
}

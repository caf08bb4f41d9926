/**
 Text kept as UTF-8 bytes: cutting on character boundaries (src/text.rs:7-16), keeping the
 tail of a stream (src/gateway.rs:260-298), and logging each stream once (src/gateway.rs:318-435).
 A text is its characters; the code works on their bytes (section 3 of RFC 3629).
 */
module StreamText {
  import opened Wrappers
  import opened Strings

  type byte = x: int | 0 <= x < 256

  const STREAM_TEXT_MAX: nat := 256 * 1024

  // ------------------------------------------------------------------- UTF-8

  function EncodeChar(c: char): (b: seq<byte>)
    ensures |b| == Utf8Width(c)
    ensures !Continuation(b[0]) && forall i :: 1 <= i < |b| ==> Continuation(b[i])
  {
    var n := c as int;
    if n < 0x80 then [n]
    else if n < 0x800 then [0xC0 + n / 64, 0x80 + n % 64]
    else if n < 0x10000 then [0xE0 + n / 4096, 0x80 + n / 64 % 64, 0x80 + n % 64]
    else [0xF0 + n / 262144, 0x80 + n / 4096 % 64, 0x80 + n / 64 % 64, 0x80 + n % 64]
  }

  /** One character of each width. */
  lemma Utf8Spelled()
    ensures EncodeChar('A') == [0x41] && EncodeChar('\U{E9}') == [0xC3, 0xA9]
    ensures EncodeChar('\U{20AC}') == [0xE2, 0x82, 0xAC] && EncodeChar('\U{10348}') == [0xF0, 0x90, 0x8D, 0x88]
  {
  }

  predicate Continuation(b: byte) {
    0x80 <= b < 0xC0
  }

  function Encode(cs: string): (b: seq<byte>)
    ensures |b| == Utf8Len(cs)
  {
    if cs == "" then [] else Encode(cs[..|cs| - 1]) + EncodeChar(cs[|cs| - 1])
  }

  /** `str::is_char_boundary`. */
  predicate IsBoundary(b: seq<byte>, i: nat) {
    i == 0 || i == |b| || (i < |b| && !Continuation(b[i]))
  }

  lemma {:induction false} EncodeAppend(a: string, b: string)
    ensures Encode(a + b) == Encode(a) + Encode(b)
    ensures Utf8Len(a + b) == Utf8Len(a) + Utf8Len(b)
  {
    hide EncodeChar, Utf8Width;
    if b == "" {
      assert a + b == a;
    } else {
      var front, last := b[..|b| - 1], b[|b| - 1];
      EncodeAppend(a, front);
      assert (a + b)[..|a + b| - 1] == a + front;
      ConcatAssoc(Encode(a), Encode(front), EncodeChar(last));
    }
  }

  lemma EncodeSplit(cs: string, k: nat)
    requires k <= |cs|
    ensures Encode(cs) == Encode(cs[..k]) + Encode(cs[k..])
    ensures Utf8Len(cs) == Utf8Len(cs[..k]) + Utf8Len(cs[k..])
  {
    hide EncodeChar, Encode, Utf8Len;
    SplitAt(cs, k);
    EncodeAppend(cs[..k], cs[k..]);
  }

  lemma PrefixStep(cs: string, k: nat)
    requires k < |cs|
    ensures Utf8Len(cs[..k + 1]) == Utf8Len(cs[..k]) + Utf8Width(cs[k])
    ensures Encode(cs[..k + 1]) == Encode(cs[..k]) + EncodeChar(cs[k])
  {
    assert cs[..k + 1][..k] == cs[..k];
  }

  lemma {:induction false} PrefixGrows(cs: string, j: nat, k: nat)
    requires j <= k <= |cs|
    ensures Utf8Len(cs[..k]) >= Utf8Len(cs[..j]) + (k - j)
    decreases k - j
  {
    if j < k {
      PrefixGrows(cs, j, k - 1);
      PrefixStep(cs, k - 1);
    }
  }

  /** `i` is the length in bytes of some of the first characters. */
  ghost predicate BetweenChars(cs: string, i: nat) {
    exists k :: 0 <= k <= |cs| && Utf8Len(cs[..k]) == i
  }

  lemma BetweenCharsStep(cs: string, i: nat)
    requires cs != "" && i <= Utf8Len(cs)
    ensures var init := cs[..|cs| - 1];
      BetweenChars(cs, i) <==> (i <= Utf8Len(init) && BetweenChars(init, i)) || i == Utf8Len(cs)
  {
    var n := |cs| - 1;
    var init := cs[..n];
    assert cs[..|cs|] == cs && init[..n] == init;
    assert forall k :: 0 <= k <= n ==> init[..k] == cs[..k];
    if BetweenChars(cs, i) {
      var k :| 0 <= k <= |cs| && Utf8Len(cs[..k]) == i;
      if k <= n { PrefixGrows(init, k, n); }
    }
    if i <= Utf8Len(init) && BetweenChars(init, i) {
      var k :| 0 <= k <= |init| && Utf8Len(init[..k]) == i;
      assert Utf8Len(cs[..k]) == i;
    }
  }

  /** The byte test finds exactly the places between characters. */
  lemma {:induction false} BoundaryIsBetweenChars(cs: string, i: nat)
    requires i <= Utf8Len(cs)
    ensures IsBoundary(Encode(cs), i) <==> BetweenChars(cs, i)
  {
    hide EncodeChar;
    if cs == "" {
      assert cs[..0] == "";
    } else {
      BetweenCharsStep(cs, i);
      var init, last := Encode(cs[..|cs| - 1]), EncodeChar(cs[|cs| - 1]);
      if i < |init| {
        assert Encode(cs)[i] == init[i];
        BoundaryIsBetweenChars(cs[..|cs| - 1], i);
      } else {
        assert i < |init + last| ==> Encode(cs)[i] == last[i - |init|];
        assert i == |init| ==> BetweenChars(cs[..|cs| - 1], i) by {
          assert cs[..|cs| - 1][..|cs| - 1] == cs[..|cs| - 1];
        }
      }
    }
  }

  // -------------------------------------------------------- longest that fits

  /** `k` characters are the longest prefix of at most `max` bytes. */
  ghost predicate FitsFront(cs: string, max: nat, k: nat) {
    && k <= |cs| && Utf8Len(cs[..k]) <= max
    && (k < |cs| ==> Utf8Len(cs[..k + 1]) > max)
  }

  /** The characters from `k` on are the longest suffix of at most `max` bytes. */
  ghost predicate FitsBack(cs: string, max: nat, k: nat) {
    && k <= |cs| && Utf8Len(cs[k..]) <= max
    && (k > 0 ==> Utf8Len(cs[k - 1..]) > max)
  }

  /** truncate_bytes: step back from the limit to a boundary. */
  method TruncateBytes(s: seq<byte>, maxBytes: nat, ghost cs: string) returns (r: seq<byte>, ghost k: nat)
    requires s == Encode(cs)
    ensures FitsFront(cs, maxBytes, k) && r == Encode(cs[..k])
  {
    if |s| <= maxBytes {
      assert cs[..|cs|] == cs;
      return s, |cs|;
    }
    var end := maxBytes;
    while end > 0 && !IsBoundary(s, end)
      invariant 0 <= end <= maxBytes
      invariant forall i :: end < i <= maxBytes ==> !IsBoundary(s, i)
    {
      end := end - 1;
    }
    BoundaryIsBetweenChars(cs, end);
    k :| 0 <= k <= |cs| && Utf8Len(cs[..k]) == end;
    EncodeSplit(cs, k);
    r := s[..end];
    assert cs[..|cs|] == cs;
    PrefixStep(cs, k);
    if Utf8Len(cs[..k + 1]) <= maxBytes {
      BoundaryIsBetweenChars(cs, Utf8Len(cs[..k + 1]));
    }
  }

  lemma {:induction false} SuffixGrows(cs: string, j: nat, k: nat)
    requires j <= k <= |cs|
    ensures Utf8Len(cs[j..]) == Utf8Len(cs) - Utf8Len(cs[..j])
    ensures Utf8Len(cs[j..]) >= Utf8Len(cs[k..])
  {
    EncodeSplit(cs, j);
    EncodeSplit(cs, k);
    PrefixGrows(cs, j, k);
  }

  lemma FitsBackUnique(cs: string, max: nat, j: nat, k: nat)
    requires FitsBack(cs, max, j) && FitsBack(cs, max, k)
    ensures j == k
  {
    if j < k {
      SuffixGrows(cs, j, k - 1);
    } else if k < j {
      SuffixGrows(cs, k, j - 1);
    }
  }

  /** `t` starts at `k` and is the longest suffix of at most `max` bytes. */
  ghost predicate TailAt(cs: string, max: nat, t: string, k: nat) {
    FitsBack(cs, max, k) && t == cs[k..]
  }

  /** Drop from the front until it fits. */
  ghost function Tail(cs: string, max: nat): (t: string)
    ensures exists k: nat :: TailAt(cs, max, t, k)
    decreases |cs|
  {
    if Utf8Len(cs) <= max then
      assert cs[0..] == cs;
      assert TailAt(cs, max, cs, 0);
      cs
    else
      var t := Tail(cs[1..], max);
      assert exists k: nat :: TailAt(cs, max, t, k) by {
        var k: nat :| TailAt(cs[1..], max, t, k);
        assert cs[1..][k..] == cs[k + 1..];
        if k > 0 {
          assert cs[1..][k - 1..] == cs[k..];
        } else {
          assert cs[0..] == cs;
        }
        assert TailAt(cs, max, t, k + 1);
      }
      t
  }

  /** The tail is the only longest suffix that fits. */
  lemma TailIs(cs: string, max: nat, k: nat)
    requires FitsBack(cs, max, k)
    ensures Tail(cs, max) == cs[k..]
  {
    var t := Tail(cs, max);
    var j: nat :| TailAt(cs, max, t, j);
    FitsBackUnique(cs, max, j, k);
  }

  lemma TailStart(cs: string, max: nat) returns (k: nat)
    ensures FitsBack(cs, max, k) && Tail(cs, max) == cs[k..]
  {
    var t := Tail(cs, max);
    k :| TailAt(cs, max, t, k);
  }

  /** Keeping the tail early loses nothing: the tail of the tail with more text is the tail of it all. */
  lemma TailOfTail(a: string, b: string, max: nat)
    ensures Tail(Tail(a, max) + b, max) == Tail(a + b, max)
  {
    hide Tail, Utf8Len;
    var j := TailStart(a, max);
    var s, all := a[j..] + b, a + b;
    var k := TailStart(s, max);
    assert all[j + k..] == s[k..];
    if k > 0 {
      assert all[j + k - 1..] == s[k - 1..];
    } else if j > 0 {
      assert all[j - 1..] == a[j - 1..] + b;
      EncodeAppend(a[j - 1..], b);
    }
    TailIs(all, max, j + k);
  }

  // ---------------------------------------------------------- stream collect

  class StreamCollect {
    var text: seq<byte>
    var ttfbMs: Option<int>
    ghost var chars: string

    ghost predicate Valid()
      reads this
    {
      text == Encode(chars) && |text| <= STREAM_TEXT_MAX
    }

    constructor ()
      ensures Valid() && chars == "" && ttfbMs.None?
    {
      text := [];
      ttfbMs := None;
      chars := "";
    }

    /** append_chunk; `decoded` is the lossy decoding of the chunk's bytes. */
    method AppendChunk(decoded: string, elapsedMs: int)
      requires Valid()
      modifies this
      ensures Valid() && chars == Tail(old(chars) + decoded, 262_144)
      ensures ttfbMs == Some(old(ttfbMs).UnwrapOr(elapsedMs))
    {
      hide Tail, Encode, Utf8Len;
      if ttfbMs.None? {
        ttfbMs := Some(elapsedMs);
      }
      EncodeAppend(chars, decoded);
      text := text + Encode(decoded);
      chars := chars + decoded;
      if |text| > STREAM_TEXT_MAX {
        var excess := |text| - STREAM_TEXT_MAX;
        var cut := excess;
        while cut < |text| && !IsBoundary(text, cut)
          invariant excess <= cut <= |text|
          invariant forall i :: excess <= i < cut ==> !IsBoundary(text, i)
        {
          cut := cut + 1;
        }
        ghost var k := CutIsTail(chars, excess, cut);
        text := text[cut..];
        chars := chars[k..];
      } else {
        assert chars[0..] == chars;
        TailIs(chars, STREAM_TEXT_MAX, 0);
      }
    }
  }

  /** The first boundary at or past the excess starts the longest suffix that fits. */
  lemma CutIsTail(cs: string, excess: nat, cut: nat) returns (k: nat)
    requires 0 < excess <= cut <= Utf8Len(cs) && Utf8Len(cs) - excess == STREAM_TEXT_MAX
    requires IsBoundary(Encode(cs), cut) && forall i :: excess <= i < cut ==> !IsBoundary(Encode(cs), i)
    ensures k <= |cs| && cs[k..] == Tail(cs, STREAM_TEXT_MAX)
    ensures Encode(cs)[cut..] == Encode(cs[k..])
  {
    BoundaryIsBetweenChars(cs, cut);
    k :| 0 <= k <= |cs| && Utf8Len(cs[..k]) == cut;
    EncodeSplit(cs, k);
    if k > 0 {
      SuffixGrows(cs, k - 1, k);
      PrefixStep(cs, k - 1);
      BoundaryIsBetweenChars(cs, Utf8Len(cs[..k - 1]));
    }
    TailIs(cs, STREAM_TEXT_MAX, k);
  }

  function Concat(chunks: seq<string>): string {
    if chunks == [] then "" else Concat(chunks[..|chunks| - 1]) + chunks[|chunks| - 1]
  }

  /** What the collector holds after a sequence of chunks. */
  ghost function Collected(chunks: seq<string>): string {
    if chunks == [] then ""
    else Tail(Collected(chunks[..|chunks| - 1]) + chunks[|chunks| - 1], STREAM_TEXT_MAX)
  }

  lemma CollectedMore(chunks: seq<string>, chunk: string)
    ensures Collected(chunks + [chunk]) == Tail(Collected(chunks) + chunk, STREAM_TEXT_MAX)
  {
    assert (chunks + [chunk])[..|chunks|] == chunks;
  }

  /** Incremental tail keeping equals one-shot tail keeping. */
  lemma {:induction false} CollectedIsTail(chunks: seq<string>)
    ensures Collected(chunks) == Tail(Concat(chunks), STREAM_TEXT_MAX)
  {
    if chunks != [] {
      CollectedIsTail(chunks[..|chunks| - 1]);
      TailOfTail(Concat(chunks[..|chunks| - 1]), chunks[|chunks| - 1], STREAM_TEXT_MAX);
    }
  }

  // --------------------------------------------------------------- TeeStream

  /** What the inner body yields when polled. */
  datatype Yield = Chunk(decoded: string) | Broken | Ended | NotReady

  /** The stream a client reads; `logged` are the usage records written for it. */
  class TeeStream {
    const collect: StreamCollect
    var pending: bool
    var done: bool
    var finalized: bool
    ghost var passed: seq<string>
    ghost var logged: seq<string>

    /** `pending` is `ctx.is_some()`: the context is taken by the one record written. */
    ghost predicate Valid()
      reads this, collect
    {
      && (pending ==> logged == [] && !finalized && collect.Valid() && collect.chars == Collected(passed))
      && (!pending ==> logged == [Collected(passed)] && finalized && done)
    }

    constructor ()
      ensures Valid() && pending && passed == [] && logged == [] && fresh(collect)
    {
      collect := new StreamCollect();
      pending, done, finalized := true, false, false;
      passed, logged := [], [];
    }

    method FinalizeStream()
      requires pending && logged == [] && finalized && collect.Valid() && collect.chars == Collected(passed)
      modifies this
      ensures !pending && logged == [Collected(passed)]
      ensures passed == old(passed) && done == old(done) && finalized == old(finalized)
    {
      pending := false;
      logged := [collect.chars];
    }

    /** One poll; `inner` is what the inner body yields if it is asked. */
    method PollNext(inner: Yield, elapsedMs: int) returns (out: Yield)
      requires Valid()
      modifies this, collect
      ensures Valid()
      ensures old(done) ==> out == Ended && done && !pending && passed == old(passed)
      ensures !old(done) ==>
        && out == inner
        && passed == (if inner.Chunk? then old(passed) + [inner.decoded] else old(passed))
        && (done <==> inner.Broken? || inner.Ended?)
        && (pending <==> !inner.Ended?)
    {
      hide Collected, Tail, Encode;
      if !done {
        match inner {
          case Chunk(decoded) =>
            collect.AppendChunk(decoded, elapsedMs);
            CollectedMore(passed, decoded);
            passed := passed + [decoded];
            return inner;
          case Broken =>
            done := true;
            return inner;
          case NotReady => return inner;
          case Ended => done := true;
        }
      }
      if !finalized {
        finalized := true;
        FinalizeStream();
      }
      out := Ended;
    }

    /** Dropping the body: a record that is still due is written now, if a runtime is there to write it. */
    method DropStream(inRuntime: bool)
      requires Valid()
      modifies this
      ensures passed == old(passed) && finalized && done == old(done)
      ensures logged == if !old(pending) || inRuntime then [Collected(passed)] else []
      ensures pending <==> old(pending) && !inRuntime
    {
      if finalized || !pending {
        return;
      }
      finalized := true;
      if inRuntime {
        FinalizeStream();
      }
    }
  }
}

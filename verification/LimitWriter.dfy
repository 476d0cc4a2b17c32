/** xio/limitwriter.go: a writer that keeps the first N and the last N bytes of
    everything written to it. */
module LimitWriter {

  newtype byte = x: int | 0 <= x < 256

  function Ascii(s: string): (b: seq<byte>)
    ensures |b| == |s|
  {
    seq(|s|, i requires 0 <= i < |s| => ((s[i] as int) % 256) as byte)
  }

  const SKIP_MESSAGE: seq<byte> := Ascii("\nTruncating output...\n\n")

  function Min(a: nat, b: nat): nat {
    if a < b then a else b
  }

  /** The whole specification of the writer. */
  function Limited(n: nat, s: seq<byte>): seq<byte> {
    if |s| <= 2 * n then s else s[..n] + SKIP_MESSAGE + s[|s| - n..]
  }

  /** What has reached the underlying writer before Flush. */
  function Unflushed(n: nat, s: seq<byte>): seq<byte> {
    s[..Min(n, |s|)] + if |s| > 2 * n then SKIP_MESSAGE else []
  }

  function Concat(chunks: seq<seq<byte>>): seq<byte> {
    if chunks == [] then [] else Concat(chunks[..|chunks| - 1]) + chunks[|chunks| - 1]
  }

  lemma ConcatNext(chunks: seq<seq<byte>>, i: nat)
    requires i < |chunks|
    ensures Concat(chunks[..i + 1]) == Concat(chunks[..i]) + chunks[i]
  {
    assert chunks[..i + 1][..i] == chunks[..i];
  }

  /** The contents of a circular slice, oldest byte first. */
  function Ring(suffix: seq<byte>, off: nat): seq<byte>
    requires off <= |suffix|
  {
    suffix[off..] + suffix[..off]
  }

  function Overwrite(suffix: seq<byte>, off: nat, b: seq<byte>): seq<byte>
    requires off + |b| <= |suffix|
  {
    suffix[..off] + b + suffix[off + |b|..]
  }

  /** Overwriting the oldest bytes in place and moving the offset drops them from
      the front of the ring and appends the new ones at its end. */
  lemma RingOverwrite(suffix: seq<byte>, off: nat, b: seq<byte>)
    requires off < |suffix| && off + |b| <= |suffix|
    ensures
      var next := if off + |b| == |suffix| then 0 else off + |b|;
      Ring(Overwrite(suffix, off, b), next) == (Ring(suffix, off) + b)[|b|..]
  {
    var r := Overwrite(suffix, off, b);
    if off + |b| == |suffix| {
      assert r[0..] + r[..0] == r;
      assert (Ring(suffix, off) + b)[|b|..] == suffix[..off] + b;
    } else {
      assert r[off + |b|..] == suffix[off + |b|..];
      assert r[..off + |b|] == suffix[..off] + b;
      assert (suffix[off..] + suffix[..off] + b)[|b|..] == suffix[off + |b|..] + suffix[..off] + b;
    }
  }

  function Tail(s: seq<byte>, k: nat): seq<byte>
    requires k <= |s|
  {
    s[|s| - k..]
  }

  lemma TailAppend(s: seq<byte>, k: nat, b: seq<byte>)
    requires |b| <= k <= |s|
    ensures Tail(s + b, k) == (Tail(s, k) + b)[|b|..]
  {
  }

  /** The io.Writer behind the limiter: both users pass a bytes.Buffer, whose
      writes are complete and never fail. */
  class Buffer {
    var data: seq<byte>

    constructor ()
      ensures data == []
    {
      data := [];
    }

    method Write(b: seq<byte>) returns (n: nat)
      modifies this
      ensures data == old(data) + b && n == |b|
    {
      data := data + b;
      n := |b|;
    }
  }

  /** The parts of the stream: the first N bytes and all the others. */
  ghost predicate AreParts(n: nat, head: seq<byte>, body: seq<byte>) {
    |head| <= n && (body != [] ==> |head| == n)
  }

  lemma PartsGiveLimited(n: nat, head: seq<byte>, body: seq<byte>)
    requires AreParts(n, head, body)
    ensures Limited(n, head + body) ==
      head + (if |body| > n then SKIP_MESSAGE else []) + Tail(body, Min(n, |body|))
  {
    if |body| > n {
      assert (head + body)[..n] == head;
      assert (head + body)[|head + body| - n..] == Tail(body, n);
    }
  }

  lemma PartsGiveUnflushed(n: nat, head: seq<byte>, body: seq<byte>)
    requires AreParts(n, head, body)
    ensures Unflushed(n, head + body) == head + if |body| > n then SKIP_MESSAGE else []
  {
    assert (head + body)[..|head|] == head;
  }

  lemma AppendInTwo(w: seq<byte>, b: seq<byte>, n: nat)
    requires n <= |b|
    ensures (w + b[..n]) + b[n..] == w + b
  {
  }

  lemma AppendIsAssociative(a: seq<byte>, b: seq<byte>, c: seq<byte>)
    ensures a + b + c == a + (b + c)
  {
  }

  lemma AppendNothing(s: seq<byte>, b: seq<byte>)
    requires |b| == 0
    ensures s + b == s
  {
  }

  lemma PutTogether(a: seq<byte>, b: seq<byte>, c: seq<byte>, d: seq<byte>)
    ensures a + b + c + d == a + (b + c + d)
  {
  }

  /** The ring holds the last bytes of the body, oldest first from the offset. */
  ghost predicate RingHolds(n: nat, suffix: seq<byte>, off: nat, body: seq<byte>) {
    && n >= 1
    && |suffix| == Min(n, |body|)
    && off < n && (|suffix| < n ==> off == 0)
    && Ring(suffix, off) == Tail(body, |suffix|)
  }

  lemma RingFill(n: nat, suffix: seq<byte>, body: seq<byte>, add: seq<byte>)
    requires RingHolds(n, suffix, 0, body) && |suffix| + |add| <= n && |suffix| == |body|
    ensures RingHolds(n, suffix + add, 0, body + add)
  {
    assert Ring(suffix, 0) == suffix;
    assert Ring(suffix + add, 0) == suffix + add;
  }

  lemma RingTurn(n: nat, suffix: seq<byte>, off: nat, body: seq<byte>, b: seq<byte>)
    requires RingHolds(n, suffix, off, body) && |suffix| == n && off + |b| <= n
    ensures RingHolds(n, Overwrite(suffix, off, b), if off + |b| == n then 0 else off + |b|, body + b)
  {
    RingOverwrite(suffix, off, b);
    TailAppend(body, n, b);
  }

  lemma TurnOnce(limit: nat, suffix: seq<byte>, off: nat, body: seq<byte>, b: seq<byte>, n: nat)
    requires RingHolds(limit, suffix, off, body) && |suffix| == limit && n <= |b| && off + n <= limit
    ensures RingHolds(limit, Overwrite(suffix, off, b[..n]), if off + n == limit then 0 else off + n, body + b[..n])
    ensures body + b[..n] + b[n..] == body + b
  {
    RingTurn(limit, suffix, off, body, b[..n]);
    AppendInTwo(body, b, n);
  }

  class PrefixSuffixWriter {
    const W: Buffer
    const N: nat
    var prefix: nat
    var suffix: seq<byte>
    var suffixOff: nat
    var skipped: bool
    /** The stream so far, also cut after its first N bytes, and what the sink held before it. */
    ghost var written: seq<byte>
    ghost var head: seq<byte>
    ghost var body: seq<byte>
    ghost const base: seq<byte>

    /** Everything but when the skip message is due. */
    ghost predicate Core()
      reads this, W
    {
      && written == head + body && AreParts(N, head, body)
      && prefix == |head|
      && RingHolds(N, suffix, suffixOff, body)
      && W.data == base + head + if skipped then SKIP_MESSAGE else []
    }

    ghost predicate Valid()
      reads this, W
    {
      Core() && (skipped <==> |body| > N)
    }

    constructor (w: Buffer, n: nat)
      requires n >= 1
      ensures Valid() && written == [] && W == w && N == n && base == w.data
    {
      W, N := w, n;
      prefix, suffix, suffixOff, skipped := 0, [], 0, false;
      written, head, body, base := [], [], [], w.data;
    }

    method Write(b0: seq<byte>) returns (r: nat)
      requires Valid()
      modifies this, W
      ensures Valid() && written == old(written) + b0
      ensures r == |b0|
    {
      var lenb := |b0|;
      var n := WritePrefix(b0);
      AppendInTwo(old(written), b0, n);
      if n == lenb {
        assert b0[..n] == b0;
        return lenb;
      }
      var b := b0[n..];
      b := FillSuffix(b);
      if |b| > 0 {
        WriteSkipMessageOnce();
      }
      OverwriteSuffix(b);
      return lenb;
    }

    /** The stream after the ring has taken in more bytes. */
    ghost method Account(b: seq<byte>)
      requires written == head + body && AreParts(N, head, body) && prefix == |head| == N
      requires RingHolds(N, suffix, suffixOff, body + b)
      requires W.data == base + head + if skipped then SKIP_MESSAGE else []
      requires if b == [] then skipped <==> |body| > N else skipped && |body| >= N
      modifies this`body, this`written
      ensures Valid() && written == old(written) + b
    {
      AppendIsAssociative(head, body, b);
      body, written := body + b, written + b;
    }

    method WritePrefix(b: seq<byte>) returns (n: nat)
      requires Valid()
      modifies this`prefix, this`head, this`written, W
      ensures Valid() && n == Min(N - old(prefix), |b|)
      ensures written == old(written) + b[..n]
      ensures n < |b| ==> prefix == N
    {
      var limit: int := N - prefix;
      if limit <= 0 {
        return 0;
      }
      if limit > |b| {
        limit := |b|;
      }
      n := W.Write(b[..limit]);
      prefix := prefix + n;
      head := head + b[..n];
      written := written + b[..n];
    }

    method FillSuffix(b: seq<byte>) returns (rest: seq<byte>)
      requires Valid() && prefix == N
      modifies this`suffix, this`body, this`written
      ensures Core() && (rest == [] ==> Valid())
      ensures written + rest == old(written) + b
      ensures rest != [] ==> |suffix| == N
    {
      if |suffix| == N {
        return b;
      }
      rest := b;
      var remain := N - |suffix|;
      if remain > 0 {
        var add := Min(|b|, remain);
        RingFill(N, suffix, body, b[..add]);
        AppendInTwo(written, b, add);
        suffix := suffix + b[..add];
        body := body + b[..add];
        written := written + b[..add];
        rest := b[add..];
      }
    }

    method WriteSkipMessageOnce()
      requires Core() && prefix == N
      modifies this`skipped, W
      ensures Core() && skipped
    {
      if skipped {
        return;
      }
      skipped := true;
      var n := W.Write(SKIP_MESSAGE);
    }

    method OverwriteSuffix(b: seq<byte>)
      requires Core() && prefix == N
      requires if b == [] then Valid() else |suffix| == N && skipped
      modifies this`suffix, this`suffixOff, this`body, this`written
      ensures Valid() && written == old(written) + b
    {
      TurnRing(b);
      Account(b);
    }

    /** The loop: overwrites the oldest bytes, in as many turns as it takes. */
    method TurnRing(b0: seq<byte>)
      requires RingHolds(N, suffix, suffixOff, body) && (b0 != [] ==> |suffix| == N)
      modifies this`suffix, this`suffixOff
      ensures RingHolds(N, suffix, suffixOff, body + b0)
    {
      var b := b0;
      ghost var stream := body;
      while |b| > 0
        invariant stream + b == body + b0 && (b0 != [] ==> |suffix| == N)
        invariant RingHolds(N, suffix, suffixOff, stream)
        decreases |b|
      {
        var n := Min(|suffix| - suffixOff, |b|);
        TurnOnce(N, suffix, suffixOff, stream, b, n);
        stream := stream + b[..n];
        suffix := Overwrite(suffix, suffixOff, b[..n]);
        b := b[n..];
        suffixOff := suffixOff + n;
        if suffixOff == N {
          suffixOff := 0;
        }
      }
      AppendNothing(stream, b);
    }

    method Flush()
      requires Valid()
      modifies W
      ensures W.data == base + Limited(N, written)
    {
      var n := W.Write(suffix[suffixOff..]);
      n := W.Write(suffix[..suffixOff]);
      var skip, ring := if skipped then SKIP_MESSAGE else [], Ring(suffix, suffixOff);
      AppendIsAssociative(base + head + skip, suffix[suffixOff..], suffix[..suffixOff]);
      assert Limited(N, written) == head + skip + ring by { PartsGiveLimited(N, head, body); }
      PutTogether(base, head, skip, ring);
    }

    /** What the sink holds between writes. */
    lemma SinkBeforeFlush()
      requires Valid()
      ensures W.data == base + Unflushed(N, written)
    {
      var skip := if skipped then SKIP_MESSAGE else [];
      assert Unflushed(N, written) == head + skip by { PartsGiveUnflushed(N, head, body); }
      assert base + (head + skip) == base + head + skip;
    }

    /** What the ring holds between writes: the last min(N, total - prefix) bytes. */
    lemma RingBetweenWrites()
      requires Valid()
      ensures prefix == Min(N, |written|)
      ensures |suffix| == Min(N, |written| - prefix) && suffixOff < N
      ensures |suffix| < N ==> suffixOff == 0
      ensures Ring(suffix, suffixOff) == Tail(written, |suffix|)
      ensures skipped <==> |written| > 2 * N
    {
    }
  }

  /** A fresh writer fed with all the chunks. */
  method WriteAll(limit: nat, chunks: seq<seq<byte>>) returns (psw: PrefixSuffixWriter)
    requires limit >= 1
    ensures fresh(psw) && fresh(psw.W) && psw.Valid() && psw.N == limit && psw.base == []
    ensures psw.written == Concat(chunks)
  {
    var buf := new Buffer();
    psw := new PrefixSuffixWriter(buf, limit);
    for i := 0 to |chunks|
      invariant fresh(psw) && fresh(psw.W) && psw.Valid() && psw.N == limit && psw.base == []
      invariant psw.written == Concat(chunks[..i])
    {
      ConcatNext(chunks, i);
      var n := psw.Write(chunks[i]);
    }
    assert chunks[..|chunks|] == chunks;
  }

  /** What background.Process does with a command's output: any number of writes
      of any sizes, then one Flush. Only the concatenation matters. */
  method CaptureAndFlush(limit: nat, chunks: seq<seq<byte>>) returns (out: seq<byte>)
    requires limit >= 1
    ensures out == Limited(limit, Concat(chunks))
  {
    var psw := WriteAll(limit, chunks);
    psw.Flush();
    return psw.W.data;
  }

  /** What ExecContainer does: the same writes, and the buffer is read without a Flush. */
  method CaptureWithoutFlush(limit: nat, chunks: seq<seq<byte>>) returns (out: seq<byte>)
    requires limit >= 1
    ensures out == Unflushed(limit, Concat(chunks))
  {
    var psw := WriteAll(limit, chunks);
    psw.SinkBeforeFlush();
    return psw.W.data;
  }

  /** Without the Flush the output equals the input if and only if the input fits
      in the prefix, or is a prefix followed by nothing but the skip message. */
  lemma UnflushedIsCompleteIff(limit: nat, s: seq<byte>)
    ensures Unflushed(limit, s) == s <==>
      |s| <= limit || (|s| > 2 * limit && s[limit..] == SKIP_MESSAGE)
  {
    if limit < |s| <= 2 * limit {
      assert |Unflushed(limit, s)| == limit;
    } else if |s| > 2 * limit {
      assert s == s[..limit] + s[limit..];
      assert Unflushed(limit, s)[limit..] == SKIP_MESSAGE;
    }
  }

  /** One turn of the loop in overwriteSuffix, as far as the unread input goes. */
  function InputLeft(ring: nat, off: nat, b: seq<byte>): seq<byte>
    requires off <= ring
  {
    b[Min(ring - off, |b|)..]
  }

  function InputLeftAfter(limit: nat, off: nat, b: seq<byte>, turns: nat): seq<byte>
    requires off < limit || off == limit == 0
    decreases turns
  {
    if turns == 0 || b == [] then b
    else
      var moved := off + Min(limit - off, |b|);
      InputLeftAfter(limit, if moved == limit then 0 else moved, InputLeft(limit, off, b), turns - 1)
  }

  /** The loop consumes every input if and only if the limit is positive, which is
      why the constructor asks for N >= 1. */
  lemma LoopTerminatesIff(limit: nat, off: nat, b: seq<byte>)
    requires off < limit || off == limit == 0
    requires b != []
    ensures (exists turns: nat :: InputLeftAfter(limit, off, b, turns) == []) <==> limit >= 1
  {
    if limit >= 1 {
      EnoughTurns(limit, off, b, |b|);
    } else {
      forall turns: nat ensures InputLeftAfter(limit, off, b, turns) == b {
        NoTurnHelps(b, turns);
      }
    }
  }

  lemma {:induction false} NoTurnHelps(b: seq<byte>, turns: nat)
    ensures InputLeftAfter(0, 0, b, turns) == b
    decreases turns
  {
    if turns > 0 && b != [] {
      NoTurnHelps(b, turns - 1);
    }
  }

  lemma {:induction false} EnoughTurns(limit: nat, off: nat, b: seq<byte>, turns: nat)
    requires off < limit && |b| <= turns
    ensures InputLeftAfter(limit, off, b, turns) == []
    decreases turns
  {
    if b != [] {
      var moved := off + Min(limit - off, |b|);
      EnoughTurns(limit, if moved == limit then 0 else moved, InputLeft(limit, off, b), turns - 1);
    }
  }
}

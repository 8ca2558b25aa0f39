/** How far the client's batch buffer has been emptied: Client.batchbuf is read through two bufio.Readers,
    Client.batchbr with a buffer of BatchSize bytes and the batch scanner's own with 4096. Only the numbers
    of bytes are followed here; a reset of the readers drops what they hold and keeps what is stored. */
module BatchBuffer {
  import opened ByteSeqs
  import opened Streams
  import opened Configs
  import opened BatchCodec

  /** Unread bytes: in the scanner's reader, in batchbr, and in batchbuf. */
  datatype Pipe = Pipe(near: nat, mid: nat, store: nat)

  function Total(p: Pipe): nat { p.near + p.mid + p.store }

  function Min(a: nat, b: nat): nat { if a <= b then a else b }

  /** bufio.Reader.Read of batchbr for `room` bytes: from its buffer, or past it when the request is as large
      as the buffer, or after filling the buffer once. */
  function ReadMid(cap: nat, p: Pipe, room: nat): (r: (nat, Pipe))
    requires cap > 0
    ensures r.0 <= room && r.1.near == p.near && r.0 + Total(r.1) == Total(p)
    ensures room > 0 && p.mid + p.store > 0 ==> r.0 > 0
  {
    if p.mid > 0 then
      var n := Min(room, p.mid);
      (n, p.(mid := p.mid - n))
    else if room >= cap then
      var n := Min(room, p.store);
      (n, p.(store := p.store - n))
    else
      var pulled := Min(cap, p.store);
      var n := Min(room, pulled);
      (n, Pipe(p.near, pulled - n, p.store - pulled))
  }

  /** fill of the scanner's reader. */
  function Fill(cap: nat, p: Pipe): (r: Pipe)
    requires cap > 0 && p.near <= BUF_SIZE
    ensures Total(r) == Total(p) && p.near <= r.near <= BUF_SIZE
    ensures p.near < BUF_SIZE && p.mid + p.store > 0 ==> r.near > p.near
  {
    var (n, q) := ReadMid(cap, p, BUF_SIZE - p.near);
    q.(near := p.near + n)
  }

  /** ReadSlice of a word of `w` bytes. */
  function PullWord(cap: nat, p: Pipe, w: nat): (r: Pipe)
    requires cap > 0 && p.near <= BUF_SIZE && w <= BUF_SIZE && w <= Total(p)
    ensures Total(r) == Total(p) - w && r.near <= BUF_SIZE
    decreases BUF_SIZE - p.near
  {
    if p.near >= w then p.(near := p.near - w) else PullWord(cap, Fill(cap, p), w)
  }

  /** io.ReadFull of a body of `n` bytes; large reads go past an empty buffer. */
  function PullBody(cap: nat, p: Pipe, n: nat): (r: Pipe)
    requires cap > 0 && p.near <= BUF_SIZE && n <= Total(p)
    ensures Total(r) == Total(p) - n && r.near <= BUF_SIZE
    decreases n, if p.near == 0 then 1 else 0
  {
    if n == 0 then p
    else if p.near > 0 then
      var k := Min(n, p.near);
      PullBody(cap, p.(near := p.near - k), n - k)
    else if n >= BUF_SIZE then
      var (k, q) := ReadMid(cap, p, n);
      PullBody(cap, q, n - k)
    else
      PullBody(cap, Fill(cap, p), n)
  }

  /** How much of `s` a reading step that leaves `rest` has consumed. */
  function Less(s: Bytes, rest: Bytes): nat { if |rest| <= |s| then |s| - |rest| else 0 }

  /** The lengths of the words of the envelope at the start of `s`. */
  function LineWords(buf: nat, s: Bytes): (r: seq<nat>)
  {
    var s1 := ReadStart(buf, s).rest;
    var s2 := ReadNumber(buf, s1, SPACE, 1).rest;
    var s3 := ReadToken(buf, s2, SPACE, 1).rest;
    var s4 := ReadNumber(buf, s3, SPACE, 1).rest;
    var s5 := ReadNumber(buf, s4, NEWLINE, 2).rest;
    [Less(s, s1), Less(s1, s2), Less(s2, s3), Less(s3, s4), Less(s4, s5)]
  }

  lemma WordsShrink(buf: nat, s: Bytes)
    requires ReadEnvelope(buf, s).Parsed?
    ensures var ws := LineWords(buf, s);
            && ws[0] > 0 && (forall i :: 0 <= i < 5 ==> ws[i] <= buf)
            && ws[0] + ws[1] + ws[2] + ws[3] + ws[4] + |ReadEnvelope(buf, s).rest| == |s|
  {
    hide ReadNumber, ReadToken, ReadStart;
    var s1 := ReadStart(buf, s).rest;
    var s2 := ReadNumber(buf, s1, SPACE, 1).rest;
    var s3 := ReadToken(buf, s2, SPACE, 1).rest;
    var s4 := ReadNumber(buf, s3, SPACE, 1).rest;
    StartIs(buf, s);
    NumberLength(buf, s1, SPACE, 1);
    TokenLength(buf, s2, SPACE, 1);
    NumberLength(buf, s3, SPACE, 1);
    NumberLength(buf, s4, NEWLINE, 2);
  }

  lemma TokenLength(buf: nat, s: Bytes, d: byte, strip: nat)
    requires ReadToken(buf, s, d, strip).Parsed?
    ensures 0 <= Used(s, ReadToken(buf, s, d, strip)) <= buf
  {}

  lemma NumberLength(buf: nat, s: Bytes, d: byte, strip: nat)
    requires ReadNumber(buf, s, d, strip).Parsed?
    ensures 0 <= Used(s, ReadNumber(buf, s, d, strip)) <= buf
  {}

  function SumOf(ws: seq<nat>): nat { if ws == [] then 0 else ws[0] + SumOf(ws[1..]) }

  predicate Short(ws: seq<nat>) { forall i :: 0 <= i < |ws| ==> ws[i] <= BUF_SIZE }

  function PullWords(cap: nat, p: Pipe, ws: seq<nat>): (r: Pipe)
    requires cap > 0 && p.near <= BUF_SIZE && Short(ws) && SumOf(ws) <= Total(p)
    ensures Total(r) == Total(p) - SumOf(ws) && r.near <= BUF_SIZE
    decreases |ws|
  {
    if ws == [] then p else PullWords(cap, PullWord(cap, p, ws[0]), ws[1..])
  }

  /** One scan of the batch scanner: the words of the envelope, then the body. */
  function PullBatch(cap: nat, p: Pipe, ws: seq<nat>, n: nat): (r: Pipe)
    requires cap > 0 && p.near <= BUF_SIZE && Short(ws) && SumOf(ws) + n <= Total(p)
    ensures Total(r) == Total(p) - SumOf(ws) - n && r.near <= BUF_SIZE
  {
    PullBody(cap, PullWords(cap, p, ws), n)
  }

  /** The words and the body of a batch are what a scan consumes. */
  lemma WordsOfBatch(cfg: Config, s: Bytes)
    requires ReadBatch(cfg, BUF_SIZE, s).Parsed?
    ensures var r := ReadBatch(cfg, BUF_SIZE, s);
            var ws := LineWords(BUF_SIZE, s);
            && Short(ws) && ws != [] && ws[0] > 0 && SumOf(ws) + |r.value.body| + |r.rest| == |s|
  {
    hide ReadEnvelope, LineWords;
    assert |LineWords(BUF_SIZE, s)| == 5 by { FiveWords(BUF_SIZE, s); }
    WordsShrink(BUF_SIZE, s);
    SumOfFive(LineWords(BUF_SIZE, s));
  }

  lemma FiveWords(buf: nat, s: Bytes)
    ensures |LineWords(buf, s)| == 5
  {
    hide ReadNumber, ReadToken, ReadStart;
  }

  lemma SumOfFive(ws: seq<nat>)
    requires |ws| == 5
    ensures SumOf(ws) == ws[0] + ws[1] + ws[2] + ws[3] + ws[4]
  {
    assert ws[1..] == [ws[1], ws[2], ws[3], ws[4]] && ws[1..][1..] == [ws[2], ws[3], ws[4]];
    assert ws[1..][1..][1..] == [ws[3], ws[4]] && ws[1..][1..][1..][1..] == [ws[4]];
    assert SumOf([ws[4]]) == ws[4] && SumOf([ws[3], ws[4]]) == ws[3] + ws[4];
    assert SumOf([ws[2], ws[3], ws[4]]) == ws[2] + ws[3] + ws[4];
  }

  // ----- what the first pull takes

  /** The first read of an unread buffer takes this many bytes out of it. */
  function FirstPull(cap: nat): nat { if cap <= BUF_SIZE then BUF_SIZE else cap }

  /** Words and bodies that have been pulled already leave the store alone. */
  lemma {:induction false} WordKeepsStore(cap: nat, p: Pipe, w: nat)
    requires cap > 0 && p.near <= BUF_SIZE && w <= BUF_SIZE && w <= p.near + p.mid
    ensures PullWord(cap, p, w).store == p.store
    decreases BUF_SIZE - p.near
  {
    if p.near < w {
      WordKeepsStore(cap, Fill(cap, p), w);
    }
  }

  lemma {:induction false} EnvelopeKeepsStore(cap: nat, p: Pipe, ws: seq<nat>)
    requires cap > 0 && p.near <= BUF_SIZE && Short(ws) && SumOf(ws) <= p.near + p.mid
    ensures PullWords(cap, p, ws).store == p.store
    decreases |ws|
  {
    hide PullWord;
    if ws != [] {
      WordKeepsStore(cap, p, ws[0]);
      EnvelopeKeepsStore(cap, PullWord(cap, p, ws[0]), ws[1..]);
    }
  }

  lemma {:induction false} BodyKeepsStore(cap: nat, p: Pipe, n: nat)
    requires cap > 0 && p.near <= BUF_SIZE && n <= p.near + p.mid
    ensures PullBody(cap, p, n).store == p.store
    decreases n, if p.near == 0 then 1 else 0
  {
    if n > 0 {
      if p.near > 0 {
        var k := Min(n, p.near);
        BodyKeepsStore(cap, p.(near := p.near - k), n - k);
      } else if n >= BUF_SIZE {
        var (k, q) := ReadMid(cap, p, n);
        BodyKeepsStore(cap, q, n - k);
      } else {
        BodyKeepsStore(cap, Fill(cap, p), n);
      }
    }
  }

  /** Words that lie in the scanner's reader already. */
  lemma {:induction false} EnvelopeFromNear(cap: nat, p: Pipe, ws: seq<nat>)
    requires cap > 0 && p.near <= BUF_SIZE && Short(ws) && SumOf(ws) <= p.near
    ensures PullWords(cap, p, ws) == p.(near := p.near - SumOf(ws))
    decreases |ws|
  {
    if ws != [] {
      EnvelopeFromNear(cap, PullWord(cap, p, ws[0]), ws[1..]);
    }
  }

  /** A body that goes beyond what was pulled by at most one buffer of the scanner's makes one more pull. */
  lemma {:induction false} BodyPullsOnce(cap: nat, p: Pipe, n: nat)
    requires cap > 0 && p.near <= BUF_SIZE && n <= Total(p)
    requires p.near + p.mid < n <= p.near + p.mid + BUF_SIZE
    ensures PullBody(cap, p, n).store == p.store - Min(FirstPull(cap), p.store)
    decreases n, if p.near == 0 then 1 else 0
  {
    hide PullBody, FirstPull;
    if p.near > 0 {
      BodyPullsOnce(cap, p.(near := 0), n - p.near);
      BodyFromNear(cap, p, n);
    } else if p.mid > 0 {
      var q := if n >= BUF_SIZE then p.(mid := 0) else Pipe(p.mid, 0, p.store);
      BodyFromMid(cap, p, n);
      BodyPullsOnce(cap, q, if n >= BUF_SIZE then n - p.mid else n);
    } else {
      BodyFromStore(cap, p, n);
    }
  }

  lemma BodyFromNear(cap: nat, p: Pipe, n: nat)
    requires cap > 0 && 0 < p.near <= BUF_SIZE && p.near < n <= Total(p)
    ensures PullBody(cap, p, n) == PullBody(cap, p.(near := 0), n - p.near)
  {}

  lemma BodyFromMid(cap: nat, p: Pipe, n: nat)
    requires cap > 0 && p.near == 0 < p.mid < n <= Total(p)
    ensures n >= BUF_SIZE ==> PullBody(cap, p, n) == PullBody(cap, p.(mid := 0), n - p.mid)
    ensures n < BUF_SIZE ==> PullBody(cap, p, n) == PullBody(cap, Pipe(p.mid, 0, p.store), n)
  {
    if n >= BUF_SIZE {
      assert ReadMid(cap, p, n) == (p.mid, p.(mid := 0));
    } else {
      assert Fill(cap, p) == Pipe(p.mid, 0, p.store);
    }
    hide ReadMid, Fill;
  }

  lemma BodyFromStore(cap: nat, p: Pipe, n: nat)
    requires cap > 0 && p.near == p.mid == 0 < n <= BUF_SIZE && n <= p.store
    ensures PullBody(cap, p, n).store == p.store - Min(FirstPull(cap), p.store)
  {
    if n < BUF_SIZE {
      BodyKeepsStore(cap, Fill(cap, p), n);
    }
  }

  /** What the scan of a first batch of `size` bytes takes out of the store, if there is so much. */
  function Pulled(cap: nat, size: nat): nat
  {
    if size <= FirstPull(cap) then FirstPull(cap) else 2 * FirstPull(cap)
  }

  /** Scanning the first batch of a buffer that nothing was read from yet pulls max(BatchSize, 4096) bytes, or
      twice as many when the batch itself is larger, or everything: what is left in the store is known
      exactly. A body is never larger than BatchSize. */
  lemma FirstScanPulls(cap: nat, length: nat, ws: seq<nat>, n: nat)
    requires cap > 0 && Short(ws) && ws != [] && ws[0] > 0
    requires SumOf(ws) <= BUF_SIZE && n <= cap && SumOf(ws) + n <= length
    ensures PullBatch(cap, Pipe(0, 0, length), ws, n).store == length - Min(Pulled(cap, SumOf(ws) + n), length)
  {
    hide PullBody, PullWords, PullWord, Fill, FirstPull;
    var q := Fill(cap, Pipe(0, 0, length));
    FirstFill(cap, length, ws);
    if SumOf(ws) + n <= FirstPull(cap) {
      EnvelopeKeepsStore(cap, q, ws);
      BodyKeepsStore(cap, PullWords(cap, q, ws), n);
    } else {
      EnvelopeFromNear(cap, q, ws);
      BodyPullsOnce(cap, PullWords(cap, q, ws), n);
    }
  }

  /** The first word fills both buffers. */
  lemma FirstFill(cap: nat, length: nat, ws: seq<nat>)
    requires cap > 0 && Short(ws) && ws != [] && ws[0] > 0 && SumOf(ws) <= length
    ensures var p := Pipe(0, 0, length);
            var q := Fill(cap, p);
            && PullWords(cap, p, ws) == PullWords(cap, q, ws)
            && q.near == Min(BUF_SIZE, length) && q.near + q.mid == Min(FirstPull(cap), length) && cap <= FirstPull(cap)
  {
    var p := Pipe(0, 0, length);
    var q := Fill(cap, p);
    assert PullWord(cap, p, ws[0]) == PullWord(cap, q, ws[0]);
    hide PullWord;
    assert PullWords(cap, p, ws) == PullWords(cap, q, ws);
  }
}

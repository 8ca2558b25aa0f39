/** A batch written behind a torn header: the parser runs from the torn line into the next one, and the
    next start cuts both off. */
module TornHeader {
  import opened ByteSeqs
  import opened Decimal
  import opened Streams
  import opened Configs
  import opened BatchCodec
  import opened RequestCodec
  import opened Repair
  import opened PartitionTable
  import opened TopicState
  import opened TopicRefinement
  import opened LogHistory

  lemma SliceAcross(buf: nat, a: Bytes, u: Bytes, d: byte)
    requires d !in a && IndexOf(u, d) < |u|
    ensures var i := IndexOf(u, d);
            ReadSlice(buf, a + u, d) ==
            if |a| + i < buf then Slice(a + u[..i + 1], u[i + 1..], None)
            else Slice((a + u)[..buf], (a + u)[buf..], Some(BufferFull))
  {
    IndexOfFirst(u, d);
    var i := IndexOf(u, d);
    hide IndexOf;
    IndexOfIs(a + u, d, |a| + i);
    assert (a + u)[..|a| + i + 1] == a + u[..i + 1] && (a + u)[|a| + i + 1..] == u[i + 1..];
  }

  /** A word with something other than a digit in it is no number. */
  lemma NumberAcross(buf: nat, a: Bytes, u: Bytes, d: byte, strip: nat, bad: nat)
    requires d !in a && IndexOf(u, d) < |u|
    requires bad + strip <= |a| + IndexOf(u, d) && !IsDigit((a + u)[bad])
    ensures var r := ReadNumber(buf, a + u, d, strip);
            r.Failed? && (r.err == BufferFull || r.err == InvalidByte)
  {
    hide ReadSlice;
    SliceAcross(buf, a, u, d);
    var i := IndexOf(u, d);
    var word := a + u[..i + 1];
    if |a| + i < buf {
      assert word[..|word| - strip][bad] == (a + u)[bad];
    }
  }

  /** The delimiter of a word is its last byte. */
  lemma NoDelimiterBefore(buf: nat, s: Bytes, d: byte, strip: nat, k: nat)
    requires ReadToken(buf, s, d, strip).Parsed? && k < Used(s, ReadToken(buf, s, d, strip))
    ensures k <= |s| && d !in s[..k]
  {
    IndexOfFirst(s, d);
  }

  /** The first line of a batch: the size, and at least one more space before its end. */
  predicate StartsLine(buf: nat, u: Bytes)
  {
    && |u| >= 6 && u[..6] == BATCH_START
    && var p := ReadNumber(buf, u[6..], SPACE, 1);
    && p.Parsed?
    && IndexOf(p.rest, SPACE) + 2 <= IndexOf(p.rest, NEWLINE) < |p.rest|
    && 2 <= IndexOf(u, NEWLINE) < |u|
  }

  predicate Spoilt<T>(r: Parsed<T>) { r.Failed? && (r.err == BufferFull || r.err == InvalidByte) }

  lemma NumberSpoilt(buf: nat, s: Bytes, d: byte, strip: nat, k: nat, u: Bytes)
    requires ReadNumber(buf, s, d, strip).Parsed? && k < Used(s, ReadNumber(buf, s, d, strip))
    requires StartsLine(buf, u) && ((d == SPACE && strip == 1) || (d == NEWLINE && strip == 2))
    ensures k <= |s| && Spoilt(ReadNumber(buf, s[..k] + u, d, strip))
  {
    hide ReadSlice, StartsLine;
    NoDelimiterBefore(buf, s, d, strip, k);
    StartsWithLetter(buf, u);
    NumberAcross(buf, s[..k], u, d, strip, k);
  }

  lemma StartsWithLetter(buf: nat, u: Bytes)
    requires StartsLine(buf, u)
    ensures |u| > 0 && !IsDigit(u[0])
    ensures IndexOf(u, SPACE) == 5 < |u| && 2 <= IndexOf(u, NEWLINE) < |u|
  {
    hide ReadNumber;
    assert u[..6][5] == SPACE;
    assert forall j :: 0 <= j < 5 ==> u[j] == u[..6][j];
    IndexOfIs(u, SPACE, 5);
  }

  /** The torn word was the topic: it swallows "BATCH", the next size becomes the checksum, and the rest
      of the next line is no message count. */
  lemma TopicSpoilt(buf: nat, s: Bytes, k: nat, u: Bytes)
    requires ReadToken(buf, s, SPACE, 1).Parsed? && k < Used(s, ReadToken(buf, s, SPACE, 1))
    requires StartsLine(buf, u)
    ensures k <= |s|
    ensures var p := ReadToken(buf, s[..k] + u, SPACE, 1);
            Spoilt(p) ||
            (p.Parsed? && var q := ReadNumber(buf, p.rest, SPACE, 1);
             q.Parsed? && Spoilt(ReadNumber(buf, q.rest, NEWLINE, 2)))
  {
    hide ReadSlice;
    NoDelimiterBefore(buf, s, SPACE, 1, k);
    StartsWithLetter(buf, u);
    SliceAcross(buf, s[..k], u, SPACE);
    var q := ReadNumber(buf, u[6..], SPACE, 1);
    IndexOfFirst(q.rest, SPACE);
    assert [] + q.rest == q.rest;
    NumberAcross(buf, [], q.rest, NEWLINE, 2, IndexOf(q.rest, SPACE));
  }

  /** Wherever the line is cut, what is parsed across the cut is not an envelope. */
  lemma FieldsSpoilt(buf: nat, s: Bytes, k: nat, u: Bytes)
    requires ReadFields(buf, s).Parsed? && k < Used(s, ReadFields(buf, s))
    requires StartsLine(buf, u)
    ensures k <= |s| && Spoilt(ReadFields(buf, s[..k] + u))
  {
    hide ReadNumber, ReadToken, StartsLine;
    var p1 := ReadNumber(buf, s, SPACE, 1);
    var p2 := ReadToken(buf, p1.rest, SPACE, 1);
    var p3 := ReadNumber(buf, p2.rest, SPACE, 1);
    var p4 := ReadNumber(buf, p3.rest, NEWLINE, 2);
    NumberCut(buf, s, SPACE, 1, 0);
    TokenCut(buf, p1.rest, SPACE, 1, 0);
    NumberCut(buf, p2.rest, SPACE, 1, 0);
    NumberCut(buf, p3.rest, NEWLINE, 2, 0);
    var u1, u2, u3 := |s| - |p1.rest|, |s| - |p2.rest|, |s| - |p3.rest|;
    if k < u1 {
      NumberSpoilt(buf, s, SPACE, 1, k, u);
    } else {
      NumberKept(buf, s, SPACE, 1, k, u);
      if k < u2 {
        TopicSpoilt(buf, p1.rest, k - u1, u);
      } else {
        TokenKept(buf, p1.rest, SPACE, 1, k - u1, u);
        if k < u3 {
          NumberSpoilt(buf, p2.rest, SPACE, 1, k - u2, u);
        } else {
          NumberKept(buf, p2.rest, SPACE, 1, k - u2, u);
          NumberSpoilt(buf, p3.rest, NEWLINE, 2, k - u3, u);
        }
      }
    }
  }

  lemma NumberKept(buf: nat, s: Bytes, d: byte, strip: nat, k: nat, u: Bytes)
    requires ReadNumber(buf, s, d, strip).Parsed? && Used(s, ReadNumber(buf, s, d, strip)) <= k <= |s|
    ensures var p := ReadNumber(buf, s, d, strip);
            var w := Used(s, p);
            0 <= k - w <= |p.rest| && ReadNumber(buf, s[..k] + u, d, strip) == Parsed(p.value, p.rest[..k - w] + u)
  {
    hide ReadNumber;
    NumberCut(buf, s, d, strip, k);
    NumberExtend(buf, s[..k], d, strip, u);
  }

  lemma TokenKept(buf: nat, s: Bytes, d: byte, strip: nat, k: nat, u: Bytes)
    requires ReadToken(buf, s, d, strip).Parsed? && Used(s, ReadToken(buf, s, d, strip)) <= k <= |s|
    ensures var p := ReadToken(buf, s, d, strip);
            var w := Used(s, p);
            0 <= k - w <= |p.rest| && ReadToken(buf, s[..k] + u, d, strip) == Parsed(p.value, p.rest[..k - w] + u)
  {
    hide ReadToken;
    TokenCut(buf, s, d, strip, k);
    TokenExtend(buf, s[..k], d, strip, u);
  }

  /** The space behind the topic lies before the end of the line. */
  lemma FieldsLine(buf: nat, s: Bytes, t: Bytes)
    requires ReadFields(buf, s).Parsed?
    requires forall j :: 0 <= j < Used(s, ReadFields(buf, s)) - 1 ==> s[j] != NEWLINE
    ensures var p := ReadNumber(buf, s + t, SPACE, 1);
            && p.Parsed?
            && IndexOf(p.rest, SPACE) + 2 <= IndexOf(p.rest, NEWLINE) < |p.rest|
    ensures var w := Used(s, ReadFields(buf, s)); 1 <= w <= |s| && s[w - 1] == NEWLINE
  {
    hide ReadNumber, ReadToken, Spoilt;
    var p1 := ReadNumber(buf, s, SPACE, 1);
    var p2 := ReadToken(buf, p1.rest, SPACE, 1);
    var p3 := ReadNumber(buf, p2.rest, SPACE, 1);
    var p4 := ReadNumber(buf, p3.rest, NEWLINE, 2);
    NumberSuffix(buf, s, SPACE, 1);
    TokenSuffix(buf, p1.rest, SPACE, 1);
    NumberSuffix(buf, p2.rest, SPACE, 1);
    NumberSuffix(buf, p3.rest, NEWLINE, 2);
    var z := p1.rest;
    var a, x := |z| - |p2.rest| - 1, |z| - |p4.rest| - 1;
    assert s[|s| - |p4.rest| - 1] == p3.rest[|p3.rest| - |p4.rest| - 1];
    assert forall j :: 0 <= j < x ==> z[j] == s[|s| - |z| + j];
    assert z[x] == NEWLINE;
    NumberExtend(buf, s, SPACE, 1, t);
    hide IndexOf;
    IndexOfIs(z + t, SPACE, a);
    IndexOfIs(z + t, NEWLINE, x);
  }

  /** A batch that the server accepted with a plain first line starts such a line, whatever follows it. */
  lemma WholeStartsLine(cfg: Config, b: Bytes, t: Bytes)
    requires Whole(cfg, b) && HeaderLength(cfg, b) == |LineOf(b)|
    ensures StartsLine(BUF_SIZE, b + t)
  {
    hide ReadNumber, ReadFields, LineOf, HeaderLength, Whole, IndexOf;
    HeaderEnd(cfg, b);
    var s, h := b[6..], HeaderLength(cfg, b);
    NewlineFirst(b, h);
    Behind6(b, t);
    FieldsLine(BUF_SIZE, s, t);
    assert b[h - 1] == NEWLINE;
    IndexOfIs(b + t, NEWLINE, h - 1);
  }

  lemma Behind6(b: Bytes, t: Bytes)
    requires |b| >= 6 && b == BATCH_START + b[6..]
    ensures (forall j :: 0 <= j < |b[6..]| ==> b[6..][j] == b[6 + j])
    ensures (b + t)[6..] == b[6..] + t && (b + t)[..6] == BATCH_START
  {}

  lemma NewlineFirst(b: Bytes, n: nat)
    requires n == |LineOf(b)|
    ensures forall j :: 0 <= j < n - 1 ==> b[j] != NEWLINE
  {
    IndexOfFirst(b, NEWLINE);
  }

  lemma HeaderEnd(cfg: Config, b: Bytes)
    requires Whole(cfg, b)
    ensures |b| >= 6 && b == BATCH_START + b[6..]
    ensures ReadFields(BUF_SIZE, b[6..]).Parsed? && HeaderLength(cfg, b) == |b| - |ReadFields(BUF_SIZE, b[6..]).rest|
  {
    hide ReadFields, ReadStart, Validate;
    StartIs(BUF_SIZE, b);
  }

  lemma NumberSuffix(buf: nat, s: Bytes, d: byte, strip: nat)
    requires ReadNumber(buf, s, d, strip).Parsed?
    ensures var r := ReadNumber(buf, s, d, strip).rest;
            |s| - |r| >= strip && |r| < |s| && r == s[|s| - |r|..] && s[|s| - |r| - 1] == d
  {
    IndexOfFirst(s, d);
  }

  lemma TokenSuffix(buf: nat, s: Bytes, d: byte, strip: nat)
    requires ReadToken(buf, s, d, strip).Parsed?
    ensures var r := ReadToken(buf, s, d, strip).rest;
            && |r| < |s| && r == s[|s| - |r|..] && s[|s| - |r| - 1] == d
            && forall j :: 0 <= j < |s| - |r| - 1 ==> s[j] != d
  {
    IndexOfFirst(s, d);
  }

  // ----- what it costs

  /** Bytes `u` behind the first `k` bytes of a batch make no batch of it: the first line is cut, or it is
      whole and what follows is too short for the body or has another checksum. */
  predicate Spoils(cfg: Config, raw: Bytes, k: nat, u: Bytes)
    requires Whole(cfg, raw) && k <= |raw|
  {
    k < HeaderLength(cfg, raw) || |u| < |raw| - k || cfg.crc(u[..|raw| - k]) != FrameOf(cfg, raw).checksum
  }

  /** A file in which batches were written behind a header that was cut after "BATCH " and left in place:
      start-up truncates it at the cut header, and every batch behind it is gone, if and only if they spoil
      the torn batch. */
  lemma CheckCutsBehindTornHeader(cfg: Config, bs: seq<Bytes>, raw: Bytes, k: nat, next: Bytes, t: Bytes)
    requires AllWhole(cfg, bs) && Whole(cfg, raw) && 6 <= k <= HeaderLength(cfg, raw) && k < |raw|
    requires Whole(cfg, next) && HeaderLength(cfg, next) == |LineOf(next)|
    ensures var data := Flat(bs) + (raw[..k] + (next + t));
            && (Check(cfg, data) == CutAt(|Flat(bs)|) <==> Spoils(cfg, raw, k, next + t))
            && (Spoils(cfg, raw, k, next + t) ==> Repaired(cfg, data) == Flat(bs))
  {
    hide Whole, HeaderLength, AllWhole, CheckFrom, LineOf, StartsLine, ReadBatch, Flat;
    var good, u := Flat(bs), next + t;
    WholeIsLong(cfg, next);
    if k < HeaderLength(cfg, raw) {
      WholeStartsLine(cfg, next, t);
      TornBatchFails(cfg, raw, k, u);
      StopsAt(cfg, bs, raw[..k] + u);
    } else {
      ForeignBody(cfg, raw, u);
      if Spoils(cfg, raw, k, u) {
        StopsAt(cfg, bs, raw[..k] + u);
      } else {
        GoesOn(cfg, bs, raw[..k] + u[..|raw| - k], u[|raw| - k..]);
        assert raw[..k] + u == (raw[..k] + u[..|raw| - k]) + u[|raw| - k..];
      }
    }
    assert (good + (raw[..k] + u))[..|good|] == good;
  }

  lemma WholeIsLong(cfg: Config, b: Bytes)
    requires Whole(cfg, b)
    ensures |b| > 0
  {
    hide ReadBatch;
  }

  /** Check stops behind whole batches at bytes that are no batch. */
  lemma StopsAt(cfg: Config, bs: seq<Bytes>, t: Bytes)
    requires AllWhole(cfg, bs) && t != []
    requires var r := ReadBatch(cfg, BUF_SIZE, t);
             Spoilt(r) || (r.Failed? && r.err == UnexpectedEOF) || (r.Parsed? && Validate(cfg, r.value).Some?)
    ensures Check(cfg, Flat(bs) + t) == CutAt(|Flat(bs)|)
  {
    hide AllWhole, ReadBatch, Flat, Validate;
    CheckSkips(cfg, [], bs, t);
    var good := Flat(bs);
    assert [] + good + t == good + t && [] + good == good;
    assert (good + t)[|good|..] == t;
  }

  /** Check never stops before a whole batch. */
  lemma GoesOn(cfg: Config, bs: seq<Bytes>, b: Bytes, t: Bytes)
    requires AllWhole(cfg, bs) && Whole(cfg, b)
    ensures Check(cfg, Flat(bs) + (b + t)) != CutAt(|Flat(bs)|)
  {
    hide Whole, Check, Flat;
    var data := Flat(bs) + (b + t);
    FlatSnoc(bs, b);
    assert AllWhole(cfg, bs + [b]);
    assert data == Flat(bs + [b]) + t;
    WholeIsLong(cfg, b);
    CheckIsSafeAndIdempotent(cfg, data, bs + [b]);
  }

  lemma TornBatchFails(cfg: Config, raw: Bytes, k: nat, u: Bytes)
    requires Whole(cfg, raw) && 6 <= k < HeaderLength(cfg, raw) && StartsLine(BUF_SIZE, u)
    ensures k <= |raw| && Spoilt(ReadBatch(cfg, BUF_SIZE, raw[..k] + u))
  {
    hide ReadFields, StartsLine, ReadStart, Whole, HeaderLength;
    HeaderEnd(cfg, raw);
    var s := raw[6..];
    FieldsSpoilt(BUF_SIZE, s, k - 6, u);
    assert raw[..k] + u == BATCH_START + (s[..k - 6] + u);
    StartOfText(BUF_SIZE, s[..k - 6] + u);
  }

  /** Behind a whole first line the following bytes are taken for the body. */
  lemma ForeignBody(cfg: Config, raw: Bytes, u: Bytes)
    requires Whole(cfg, raw) && u != []
    ensures var h := HeaderLength(cfg, raw);
            && 6 <= h <= |raw|
            && var r, d := ReadBatch(cfg, BUF_SIZE, raw[..h] + u), |raw| - h;
            && (|u| < d ==> r.Failed? && r.err == UnexpectedEOF)
            && (|u| >= d ==>
                  && r.Parsed?
                  && (Validate(cfg, r.value) == None <==> cfg.crc(u[..d]) == FrameOf(cfg, raw).checksum)
                  && (Validate(cfg, r.value) == None ==> Whole(cfg, raw[..h] + u[..d])))
  {
    hide ReadBatch, HeaderLength;
    ForeignRead(cfg, raw, u);
    var h := HeaderLength(cfg, raw);
    var d := |raw| - h;
    if |u| >= d {
      if d > 0 {
        ForeignRead(cfg, raw, u[..d]);
        assert u[..d][..d] == u[..d] && u[..d][d..] == [];
      } else {
        assert raw[..h] + u[..d] == raw;
      }
    }
  }

  lemma ForeignRead(cfg: Config, raw: Bytes, u: Bytes)
    requires Whole(cfg, raw) && u != []
    ensures var h := HeaderLength(cfg, raw);
            && 6 <= h <= |raw| && |raw| - h <= cfg.maxBatchSize
            && var r, d := ReadBatch(cfg, BUF_SIZE, raw[..h] + u), |raw| - h;
            if |u| < d then r.Failed? && r.err == UnexpectedEOF
            else r == Parsed(FrameOf(cfg, raw).(body := u[..d]), u[d..])
  {
    hide ReadFields, ReadStart;
    HeaderEnd(cfg, raw);
    var h, s := HeaderLength(cfg, raw), raw[6..];
    StartOfText(BUF_SIZE, s);
    FieldsRest(BUF_SIZE, s);
    FieldsExtend(BUF_SIZE, s[..h - 6], u);
    assert [] + u == u;
    assert raw[..h] + u == BATCH_START + (s[..h - 6] + u);
    StartOfText(BUF_SIZE, s[..h - 6] + u);
  }

  /** After a restart that left such a header in place, the next batch is acknowledged, and a further restart
      loses it: the log then ends before the acknowledged offset, where the next batch will go. */
  lemma AcknowledgedBatchIsLost(cfg: Config, s: State, g: Segments, bs: seq<Bytes>, raw: Bytes, k: nat, next: Bytes)
    requires Represents(cfg, s, g) && cfg.maxPartitions >= 2
    requires AllWhole(cfg, bs) && Whole(cfg, raw) && 6 <= k <= HeaderLength(cfg, raw) && k < |raw|
    requires Last(g) == Flat(bs) + raw[..k] && |next| < cfg.partitionSize - |Last(g)|
    requires Whole(cfg, next) && HeaderLength(cfg, next) == |LineOf(next)| && Spoils(cfg, raw, k, next)
    ensures WellFormed(s.table)
    ensures var (s', reply) := HandleAccepted(cfg, s, next);
            var r := Setup(cfg, s'.files);
            var h := SetLast(g, Flat(bs));
            && reply == Acked(End(g)) && r.Started? && Represents(cfg, r.state, h) && End(h) == End(g) - k
  {
    hide Whole, HeaderLength, LineOf, HandleAccepted, Setup, Flat, Represents, End, Recovered, SetLast, Spoils;
    SolidRep(cfg, s, g);
    BatchRefines(cfg, s, g, next);
    var s' := HandleAccepted(cfg, s, next).0;
    TornRestart(cfg, s', g, bs, raw, k, next);
    EndOfSetLast(g, Flat(bs));
  }

  lemma TornRestart(cfg: Config, s: State, g: Segments, bs: seq<Bytes>, raw: Bytes, k: nat, next: Bytes)
    requires g.parts != [] && Represents(cfg, s, SetLast(g, Last(g) + next)) && cfg.maxPartitions >= 2
    requires AllWhole(cfg, bs) && Whole(cfg, raw) && 6 <= k <= HeaderLength(cfg, raw) && k < |raw|
    requires Last(g) == Flat(bs) + raw[..k]
    requires Whole(cfg, next) && HeaderLength(cfg, next) == |LineOf(next)| && Spoils(cfg, raw, k, next)
    ensures var r := Setup(cfg, s.files); r.Started? && Represents(cfg, r.state, SetLast(g, Flat(bs)))
  {
    hide Whole, HeaderLength, LineOf, Setup, Check, Repaired, Flat, Represents, Recovered, Solid, DiskRep, Spoils;
    var part, grown := Last(g) + next, SetLast(g, Last(g) + next);
    assert next + [] == next;
    CheckCutsBehindTornHeader(cfg, bs, raw, k, next, []);
    Spliced(Flat(bs), raw, k, next);
    SolidRep(cfg, s, grown);
    assert Last(grown) == part;
    SetupRefines(cfg, s.files, grown);
    RecoveredCut(cfg, g, part, Flat(bs));
  }

  // ----- from the crash to the loss

  /** The newest partition after a torn write: whole batches and the torn one. */
  lemma TornNewest(cfg: Config, a: Log, raw: Bytes, k: nat) returns (bs: seq<Bytes>)
    requires ValidConfig(cfg) && GoodLog(cfg, a) && 0 < k <= |raw|
    ensures Segs(a).parts != [] && a.live != [] && AllWhole(cfg, bs)
    ensures var h := Newest(cfg.maxPartitions, TornSegs(cfg, Segs(a), raw, k));
            && h.parts != [] && Last(h) == Flat(bs) + raw[..k]
            && SetLast(h, Flat(bs)) == Segs(CrashLog(cfg, a, raw, Torn(0)))
            && End(h) == |Flat(History(a))| + k
  {
    hide Whole, AllWhole, Flats, PushLog, Flat, Push, AppendLog, End, Newest;
    var max, g := cfg.maxPartitions, Segs(a);
    GoodIsNonEmpty(cfg, a);
    var last := a.live[|a.live| - 1];
    assert Last(g) == Flat(last);
    EndIsHistoryLength(a);
    if Rotates(cfg, a, raw) {
      bs := [];
      NoBatches(cfg);
      FlatEmpty<byte>();
      assert [] + raw[..k] == raw[..k];
      NewestOfOneMore(max, g, raw[..k]);
      PushEnd(max, g, raw[..k]);
      SetLastOfPush(max, g, raw[..k], []);
      PushLogSegs(max, a, []);
    } else {
      bs := last;
      var part := Flat(last) + raw[..k];
      NewestIsAll(max, SetLast(g, part));
      SetLastTwice(g, part, Flat(last));
      EndOfSetLast(g, part);
    }
  }

  lemma NewestIsAll(max: nat, g: Segments)
    requires 1 <= |g.parts| <= max
    ensures Newest(max, g) == g
  {}

  /** A crash that cuts the batch `raw` between the end of "BATCH " and its first body byte, a restart, the
      next batch, acknowledged while the torn partition is the newest, and another restart: the log is back
      where it was before both batches, and ends before the acknowledged offset. */
  lemma TornCrashLosesNext(cfg: Config, s: State, a: Log, raw: Bytes, k: nat, next: Bytes)
    requires ValidConfig(cfg) && GoodLog(cfg, a) && Represents(cfg, s, Segs(a))
    requires Whole(cfg, raw) && |raw| <= cfg.maxBatchSize && 6 <= k <= HeaderLength(cfg, raw) && k < |raw|
    requires Whole(cfg, next) && HeaderLength(cfg, next) == |LineOf(next)| && Spoils(cfg, raw, k, next)
    requires |next| < cfg.partitionSize - |Last(TornSegs(cfg, Segs(a), raw, k))|
    ensures WellFormed(s.table) && a.live != []
    ensures var up := Setup(cfg, CrashFiles(cfg, s, raw, Torn(k)));
            && up.Started? && WellFormed(up.state.table)
            && var (s', reply) := HandleAccepted(cfg, up.state, next);
            var r, b := Setup(cfg, s'.files), CrashLog(cfg, a, raw, Torn(0));
            && reply == Acked(|Flat(History(a))| + k)
            && r.Started? && Represents(cfg, r.state, Segs(b)) && History(b) == History(a)
  {
    hide Whole, HeaderLength, LineOf, HandleAccepted, Setup, Represents, GoodLog, CrashFiles, Segs, CrashLog, History,
      Flat, End, Spoils, TornSegs, Newest, Solid, DiskRep, Check, AllWhole, Repaired;
    var g := Segs(a);
    GoodIsSolid(cfg, a);
    var h := TornSegs(cfg, g, raw, k);
    var bs := TornNewest(cfg, a, raw, k);
    var w := Newest(cfg.maxPartitions, h);
    TornDisk(cfg, s, g, raw, k);
    NewestLast(cfg.maxPartitions, h);
    CheckOfTorn(cfg, bs, raw, k);
    SetupRefines(cfg, CrashFiles(cfg, s, raw, Torn(k)), h);
    IntactStays(cfg, Last(h));
    SetLastTwice(w, Last(w), Last(w));
    var up := Setup(cfg, CrashFiles(cfg, s, raw, Torn(k))).state;
    AcknowledgedBatchIsLost(cfg, up, w, bs, raw, k, next);
    CrashKeepsHistory(cfg, a, raw);
  }

  lemma IntactStays(cfg: Config, data: Bytes)
    requires Check(cfg, data) == Intact
    ensures Repaired(cfg, data) == data
  {}

  lemma CrashKeepsHistory(cfg: Config, a: Log, raw: Bytes)
    requires a.live != [] && raw != []
    ensures History(CrashLog(cfg, a, raw, Torn(0))) == History(a)
  {
    hide Flat;
    PushLogSegs(cfg.maxPartitions, a, []);
  }

  lemma Spliced(good: Bytes, raw: Bytes, k: nat, next: Bytes)
    requires k <= |raw|
    ensures good + raw[..k] + next == good + (raw[..k] + (next + []))
  {}

  lemma RecoveredCut(cfg: Config, g: Segments, part: Bytes, good: Bytes)
    requires g.parts != [] && |g.parts| <= cfg.maxPartitions && Repaired(cfg, part) == good
    ensures Recovered(cfg, SetLast(g, part)) == SetLast(g, good)
  {
    hide Repaired;
    SetLastTwice(g, part, good);
  }

  lemma EndOfSetLast(g: Segments, part: Bytes)
    requires g.parts != []
    ensures End(SetLast(g, part)) == End(g) - |Last(g)| + |part|
  {
    hide Flat;
    var n := |g.parts|;
    var init := g.parts[..n - 1];
    assert g.parts == init + [Last(g)];
    FlatSnoc(init, Last(g));
    FlatSnoc(init, part);
  }
}

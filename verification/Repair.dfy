/** topic.check of events/topics.go: what start-up keeps of the newest partition file. */
module Repair {
  import opened ByteSeqs
  import opened Streams
  import opened Configs
  import opened BatchCodec
  import opened Batches

  /** What check decides about a file: leave it, truncate it, or die on it. */
  datatype Verdict = Intact | CutAt(length: nat) | Crashes

  function CheckFrom(cfg: Config, data: Bytes, read: nat): (v: Verdict)
    requires read <= |data|
    ensures v.CutAt? ==> read <= v.length <= |data|
    decreases |data| - read
  {
    if read == |data| then Intact
    else
      match ReadBatch(cfg, BUF_SIZE, data[read..])
      case Failed(EOF, _) => Intact
      case Failed(Panic, _) => Crashes
      case Failed(_, _) => CutAt(read)
      case Parsed(f, rest) =>
        if Validate(cfg, f).Some? then CutAt(read) else CheckFrom(cfg, data, |data| - |rest|)
  }

  function Check(cfg: Config, data: Bytes): (v: Verdict)
    ensures v.CutAt? ==> v.length <= |data|
  {
    CheckFrom(cfg, data, 0)
  }

  /** The file after start-up. */
  function Repaired(cfg: Config, data: Bytes): Bytes
  {
    match Check(cfg, data)
    case CutAt(n) => data[..n]
    case _ => data
  }

  predicate AllWhole(cfg: Config, bs: seq<Bytes>)
  {
    forall i :: 0 <= i < |bs| ==> Whole(cfg, bs[i])
  }

  /** Checking skips over leading whole batches. */
  lemma {:induction false} CheckSkips(cfg: Config, done: Bytes, bs: seq<Bytes>, t: Bytes)
    requires AllWhole(cfg, bs)
    ensures CheckFrom(cfg, done + Flat(bs) + t, |done|) == CheckFrom(cfg, done + Flat(bs) + t, |done + Flat(bs)|)
    decreases |bs|
  {
    hide ReadBatch, Whole, Validate;
    if bs == [] {
      assert done + Flat(bs) == done;
    } else {
      var data, b := done + Flat(bs) + t, bs[0];
      WholeExtend(cfg, b, Flat(bs[1..]) + t);
      WholeIsValid(cfg, b);
      assert data[|done|..] == b + (Flat(bs[1..]) + t);
      assert CheckFrom(cfg, data, |done|) == CheckFrom(cfg, data, |done + b|);
      assert done + b + Flat(bs[1..]) + t == data;
      CheckSkips(cfg, done + b, bs[1..], t);
      assert done + b + Flat(bs[1..]) == done + Flat(bs);
    }
  }

  lemma WholeIsValid(cfg: Config, b: Bytes)
    requires Whole(cfg, b)
    ensures Validate(cfg, FrameOf(cfg, b)) == None && |b| >= 10
  {
    hide ReadBatch;
    ReadIsPrefix(cfg, b);
  }

  /** A file of whole batches is left alone. */
  lemma CheckOfWhole(cfg: Config, bs: seq<Bytes>)
    requires AllWhole(cfg, bs)
    ensures Check(cfg, Flat(bs)) == Intact
  {
    hide ReadBatch, Whole, Validate;
    CheckSkips(cfg, [], bs, []);
    assert [] + Flat(bs) + [] == Flat(bs) && [] + Flat(bs) == Flat(bs);
  }

  /** Where check stops is decided by the first read that fails. */
  lemma CheckStops(cfg: Config, good: Bytes, t: Bytes)
    requires t != [] && ReadBatch(cfg, BUF_SIZE, t).Failed?
    ensures CheckFrom(cfg, good + t, |good|) ==
            match ReadBatch(cfg, BUF_SIZE, t).err
            case EOF => Intact
            case Panic => Crashes
            case _ => CutAt(|good|)
  {
    hide ReadBatch;
    assert (good + t)[|good|..] == t;
  }

  /** What a crash in the middle of writing batch `b` leaves is removed at the next start exactly
      when the cut falls outside the stretch from the end of "BATCH " up to the first body byte;
      inside it the torn tail stays in the file. */
  lemma CheckOfTorn(cfg: Config, bs: seq<Bytes>, b: Bytes, k: nat)
    requires AllWhole(cfg, bs) && Whole(cfg, b) && 0 < k < |b|
    ensures Check(cfg, Flat(bs) + b[..k]) ==
            if 6 <= k <= HeaderLength(cfg, b) then Intact else CutAt(|Flat(bs)|)
  {
    hide ReadBatch, Whole, Validate, HeaderLength, Flat, AllWhole;
    var good, torn := Flat(bs), b[..k];
    CheckSkips(cfg, [], bs, torn);
    assert [] + good + torn == good + torn && [] + good == good;
    ReadBatchCut(cfg, b, k);
    CheckStops(cfg, good, torn);
  }

  /** The batches check walked over before it stopped at `n`. */
  lemma {:induction false} WalkedBatches(cfg: Config, data: Bytes, read: nat) returns (bs: seq<Bytes>)
    requires read <= |data| && CheckFrom(cfg, data, read).CutAt?
    ensures AllWhole(cfg, bs)
    ensures data[read..CheckFrom(cfg, data, read).length] == Flat(bs)
    decreases |data| - read
  {
    hide ReadBatch, Whole, Validate;
    var n := CheckFrom(cfg, data, read).length;
    if n == read {
      bs := [];
    } else {
      var s := data[read..];
      ReadIsPrefix(cfg, s);
      var next := |data| - |ReadBatch(cfg, BUF_SIZE, s).rest|;
      var more := WalkedBatches(cfg, data, next);
      bs := [s[..next - read]] + more;
      assert data[read..n] == s[..next - read] + data[next..n];
      assert bs[1..] == more;
    }
  }

  lemma {:induction false} NoLongerPrefix(cfg: Config, data: Bytes, read: nat, bs: seq<Bytes>)
    requires read <= |data| && CheckFrom(cfg, data, read).CutAt?
    requires AllWhole(cfg, bs) && Flat(bs) <= data[read..]
    ensures read + |Flat(bs)| <= CheckFrom(cfg, data, read).length
    decreases |bs|
  {
    hide ReadBatch, Whole, Validate;
    if bs != [] {
      var s, b := data[read..], bs[0];
      assert b <= Flat(bs) <= s;
      WholeExtend(cfg, b, s[|b|..]);
      WholeIsValid(cfg, b);
      assert s == b + s[|b|..];
      assert s[|b|..] == data[read + |b|..];
      assert Flat(bs) == b + Flat(bs[1..]);
      assert Flat(bs[1..]) == Flat(bs)[|b|..] <= s[|b|..];
      NoLongerPrefix(cfg, data, read + |b|, bs[1..]);
    }
  }

  /** When check truncates, what it keeps is a run of whole batches, and no longer prefix of the
      file is one. */
  lemma CheckKeepsLongestPrefix(cfg: Config, data: Bytes) returns (bs: seq<Bytes>)
    requires Check(cfg, data).CutAt?
    ensures AllWhole(cfg, bs) && Repaired(cfg, data) == Flat(bs)
    ensures forall cs :: AllWhole(cfg, cs) && Flat(cs) <= data ==> |Flat(cs)| <= |Repaired(cfg, data)|
  {
    hide ReadBatch, Whole, Validate;
    var n := Check(cfg, data).length;
    bs := WalkedBatches(cfg, data, 0);
    assert data[0..n] == data[..n];
    forall cs | AllWhole(cfg, cs) && Flat(cs) <= data
      ensures |Flat(cs)| <= n
    {
      assert data[0..] == data;
      NoLongerPrefix(cfg, data, 0, cs);
    }
  }

  /** Start-up never cuts into a prefix of whole batches, and a second start changes nothing. */
  lemma CheckIsSafeAndIdempotent(cfg: Config, data: Bytes, cs: seq<Bytes>)
    requires AllWhole(cfg, cs) && Flat(cs) <= data
    ensures Flat(cs) <= Repaired(cfg, data)
    ensures Repaired(cfg, Repaired(cfg, data)) == Repaired(cfg, data)
  {
    hide ReadBatch, Whole, Validate;
    if Check(cfg, data).CutAt? {
      var bs := CheckKeepsLongestPrefix(cfg, data);
      CheckOfWhole(cfg, bs);
    }
  }

  /** The check loop over the file. */
  method CheckHead(cfg: Config, data: Bytes) returns (v: Verdict)
    ensures v == Check(cfg, data)
  {
    hide ReadBatch;
    if |data| == 0 { return Intact; }
    var br := new Reader(BUF_SIZE, data);
    var batch := new Batch(cfg);
    var read := 0;
    while read < |data|
      invariant read <= |data| && br.rest == data[read..]
      invariant CheckFrom(cfg, data, read) == Check(cfg, data)
      invariant batch.cfg == cfg
      decreases |data| - read
    {
      var n, err := batch.ReadFrom(br);
      if err.Some? {
        if err.value == EOF { return Intact; }
        if err.value == Panic { return Crashes; }
        return CutAt(read);
      }
      err := batch.Check();
      if err.Some? { return CutAt(read); }
      ghost var rest := data[read..];
      assert br.rest == data[read + n..] by {
        assert |br.rest| < |rest|;
        ReadIsPrefix(cfg, rest);
      }
      read := read + n;
    }
    return Intact;
  }
}

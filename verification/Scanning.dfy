/** protocol/batch_scanner.go: batches read one after the other from one reader. */
module Scanning {
  import opened ByteSeqs
  import opened Streams
  import opened Configs
  import opened BatchCodec
  import opened Batches

  /** Everything a scanner yields until its first error, that error, and the bytes consumed by the
      successful scans. */
  datatype ScanLog = ScanLog(frames: seq<Frame>, err: Error, scanned: nat)

  function ScanAll(cfg: Config, buf: nat, s: Bytes): ScanLog
    decreases |s|
  {
    match ReadBatch(cfg, buf, s)
    case Failed(e, _) => ScanLog([], e, 0)
    case Parsed(f, rest) =>
      var l := ScanAll(cfg, buf, rest);
      ScanLog([f] + l.frames, l.err, |s| - |rest| + l.scanned)
  }

  function Prints(frames: seq<Frame>): (r: seq<Bytes>)
    ensures |r| == |frames| && forall i :: 0 <= i < |r| ==> r[i] == Print(frames[i])
  {
    seq(|frames|, i requires 0 <= i < |frames| => Print(frames[i]))
  }

  lemma ScanEmpty(cfg: Config, buf: nat)
    ensures ReadBatch(cfg, buf, []) == Failed(if buf > 0 then EOF else InvalidLine, [])
  {
    assert IndexOf([], SPACE) == 0;
    assert ReadSlice(buf, [], SPACE).word == [];
  }

  /** Scanning a concatenation of printed batches returns exactly that list, ends with io.EOF, and
      counts exactly the bytes of the concatenation. */
  lemma {:induction false} ScanPrinted(cfg: Config, buf: nat, frames: seq<Frame>)
    requires 256 <= buf && forall f :: f in frames ==> Printable(cfg, f)
    ensures ScanAll(cfg, buf, Flat(Prints(frames))) == ScanLog(frames, EOF, |Flat(Prints(frames))|)
  {
    hide ReadBatch, Print;
    if frames == [] {
      ScanEmpty(cfg, buf);
    } else {
      ReadPrinted(cfg, buf, frames[0], Flat(Prints(frames[1..])));
      ScanPrinted(cfg, buf, frames[1..]);
      assert Prints(frames)[1..] == Prints(frames[1..]);
      assert [frames[0]] + frames[1..] == frames;
    }
  }

  class BatchScanner {
    const cfg: Config
    const br: Reader
    const batch: Batch
    var err: Option<Error>
    var scanned: nat

    constructor (cfg: Config, br: Reader)
      ensures this.cfg == cfg && this.br == br && fresh(batch) && batch.cfg == cfg
      ensures err == None && scanned == 0
    {
      this.cfg := cfg;
      this.br := br;
      batch := new Batch(cfg);
      err, scanned := None, 0;
    }

    method Reset(data: Bytes)
      modifies this, br
      ensures br.rest == data && err == None && scanned == 0
    {
      br.Reset(data);
      err, scanned := None, 0;
    }

    /** Scan: one batch further, or the reason why not. */
    method Scan() returns (ok: bool)
      requires batch.cfg == cfg
      modifies this, br, batch
      ensures scanned == old(scanned) + |old(br.rest)| - |br.rest|
      ensures batch.nread == |old(br.rest)| - |br.rest|
      ensures match ReadBatch(cfg, br.buf, old(br.rest))
              case Parsed(f, rest) =>
                ok && err == None && batch.Contents() == f && batch.size == |f.body| && batch.wasRead && br.rest == rest
              case Failed(e, rest) => !ok && err == Some(e) && br.rest == rest
    {
      hide ReadBatch;
      batch.Reset();
      var n;
      n, err := batch.ReadFrom(br);
      scanned := scanned + n;
      ok := err == None;
    }
  }
}

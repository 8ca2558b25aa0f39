/** The Request object of protocol/request.go, filled while it consumes the connection. */
module Requests {
  import opened ByteSeqs
  import opened Decimal
  import opened Streams
  import opened Configs
  import opened RequestCodec

  class Request {
    const cfg: Config
    var name: Command
    var args: seq<Bytes>
    var raw: Bytes             // the bytes of the request read so far
    var header: nat            // how many of them are the first line
    var body: Option<Bytes>
    var bodySize: int

    constructor (cfg: Config)
      ensures this.cfg == cfg
    {
      this.cfg := cfg;
      name, args, raw, header, body, bodySize := CLOSE, [], [], 0, None, 0;
    }

    function Contents(): Received
      reads this
    {
      Received(name, args, raw, header, body, bodySize)
    }

    /** What ReadFrom leaves behind for a batch: the first argument announces the body. */
    ghost predicate WellRead()
      reads this
    {
      |args| == 4 ==>
        && bodySize >= 0 && (body.Some? ==> |body.value| == bodySize)
        && var n := ParseUint(args[0]); n.Some? && ToInt(n.value) == bodySize
    }

    /** parseArg, `count` times over the rest of the first line. */
    method ParseArgWords(start: Bytes, count: nat) returns (ok: bool)
      modifies this`args
      ensures ok == ParseArgs(start, count).Some?
      ensures ok ==> args == ParseArgs(start, count).value
    {
      hide ParseWord;
      args := [];
      var line := start;
      var i := 0;
      assert ParseArgs(start, count).Some? ==> [] + ParseArgs(start, count).value == ParseArgs(start, count).value;
      while i < count
        invariant i <= count
        invariant var rest := ParseArgs(line, count - i);
                  ParseArgs(start, count) == if rest.None? then None else Some(args + rest.value)
      {
        match ParseWord(line)
        case None => return false;
        case Some((word, rest)) =>
          ghost var more := ParseArgs(rest, count - i - 1);
          assert more.Some? ==> args + ([word] + more.value) == args + [word] + more.value;
          args := args + [word];
          line := rest;
          i := i + 1;
      }
      assert args + [] == args;
      return true;
    }

    /** readFromBuf. */
    method ReadFrom(r: Reader) returns (err: Option<Error>)
      requires r.buf == BUF_SIZE
      modifies this, r
      ensures match ReadRequest(cfg, old(r.rest))
              case Parsed(v, rest) => err == None && Contents() == v && r.rest == rest
              case Failed(e, rest) => err == Some(e) && r.rest == rest
      ensures err == None ==> WellRead()
    {
      hide ParseWord, ParseArgs, ReadSlice, ParseUint, ReadBatchRequest;
      body, bodySize := None, 0;
      var line;
      line, err := r.TakeSlice(NEWLINE);
      if err == None && |line| < 2 { return Some(Panic); }
      if |line| > cfg.maxBatchSize { return Some(Panic); }
      raw, header := line, |line|;
      if err.Some? { return; }
      if line[|line| - 2] != RETURN { return Some(InvalidLine); }

      var first := ParseWord(line);
      var command := if first.None? then None else CommandOf(first.value.0);
      if command.None? { return Some(UnknownCommand); }
      name := command.value;
      var ok := ParseArgWords(first.value.1, ArgCount(name));
      if !ok { return Some(InvalidLine); }
      ArgsCount(first.value.1, ArgCount(name));
      if name.BATCH? {
        err := ReadBodyFrom(r);
      }
    }

    /** readBody; running out of input right away is not reported here. */
    method ReadBodyFrom(r: Reader) returns (err: Option<Error>)
      requires name == BATCH && body == None && header == |raw|
      modifies this`raw, this`body, this`bodySize, r
      ensures match ReadBatchRequest(cfg, old(raw), args, old(r.rest))
              case Parsed(v, rest) => err == None && Contents() == v && r.rest == rest
              case Failed(e, rest) => err == Some(e) && r.rest == rest
      ensures err == None ==> WellRead()
    {
      hide ParseUint, ToInt, ReadFull;
      if args == [] { return Some(Panic); }
      var n := AsciiToUint(args[0]);
      if n.None? { return Some(InvalidByte); }
      bodySize := ToInt(n.value);
      if bodySize < 0 || bodySize + |raw| >= TWO_63 { return Some(Panic); }
      if bodySize + |raw| > cfg.maxBatchSize { return Some(TooLarge); }
      var data;
      data, err := r.TakeFull(bodySize);
      if err == Some(EOF) { return None; }
      if err.Some? { return; }
      body := Some(data);
      raw := raw + data;
    }
  }
}

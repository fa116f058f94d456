/** The buffered writer behind `ct_add_line`: a table buffer for standard output and a buffer for the CSV file. */
module CsvWriter {
  import opened CsvText

  const INIT_BUF_LEN := 4096
  const MAX_BUF_LEN := 4096 * 4096 * 64

  /** Overrun: the line is longer than the room left, which the guard on the remaining room does not notice. */
  datatype Outcome = Added | Aborted | Overrun

  /**
   * `__grow_buf`: twice the size with the old contents, or null when that is more than 2^30 bytes or, in the judgment of
   * `granted`, there is no memory.
   */
  method GrowBuf(buf: array<char>, granted: bool) returns (grown: array?<char>)
    ensures grown != null <==> granted && 2 * buf.Length <= 0x4000_0000
    ensures grown != null ==> fresh(grown) && grown.Length == 2 * buf.Length && grown[..buf.Length] == buf[..]
  {
    if 2 * buf.Length > MAX_BUF_LEN {
      return null;
    }
    if !granted {
      return null;
    }
    grown := new char[2 * buf.Length];
    forall k | 0 <= k < buf.Length {
      grown[k] := buf[k];
    }
  }

  /** One more converted byte at the end of a buffer. */
  lemma Appended(flushed: string, held: string, before: string, line: string, t: nat)
    requires t < |line| && flushed + held == before + CsvUpTo(line, t)
    ensures flushed + (held + CsvAt(line, t)) == before + CsvUpTo(line, t + 1)
  {
    hide CsvAt;
    Associative(flushed, held, CsvAt(line, t));
    Associative(before, CsvUpTo(line, t), CsvAt(line, t));
  }

  class Info {
    var tbuf: array<char>
    var tbufCnt: nat
    var cbuf: array<char>
    var cbufCnt: nat
    var csvOpen: bool
    var stdoutBytes: string
    var csvBytes: string

    ghost predicate Valid()
      reads this
    {
      && tbufCnt < tbuf.Length
      && cbufCnt <= cbuf.Length && cbuf.Length > 0
      && tbuf != cbuf
    }

    /** All table text accepted so far. */
    ghost function Table(): string
      requires Valid()
      reads this, tbuf
    {
      stdoutBytes + tbuf[..tbufCnt]
    }

    /** All CSV text produced so far. */
    ghost function Csv(): string
      requires Valid()
      reads this, cbuf
    {
      csvBytes + cbuf[..cbufCnt]
    }

    function Room(): int
      reads this
    {
      tbuf.Length - tbufCnt
    }

    constructor (csvOpen: bool)
      ensures Valid() && fresh(tbuf) && fresh(cbuf)
      ensures Table() == "" && Csv() == "" && this.csvOpen == csvOpen && Room() == 4096
    {
      tbuf := new char[INIT_BUF_LEN];
      cbuf := new char[INIT_BUF_LEN];
      tbufCnt, cbufCnt := 0, 0;
      this.csvOpen := csvOpen;
      stdoutBytes, csvBytes := "", "";
    }

    /** `vsnprintf` after the counted bytes: stores what fits and a NUL, and returns the full length. */
    method Format(line: string) returns (length: nat)
      requires Valid()
      modifies tbuf
      ensures length == |line| && tbuf[..tbufCnt] == old(tbuf[..tbufCnt])
      ensures |line| < Room() ==> tbuf[tbufCnt..tbufCnt + |line|] == line && tbuf[tbufCnt + |line|] == '\0'
    {
      var k := 0;
      while k < |line| && tbufCnt + k + 1 < tbuf.Length
        invariant 0 <= k <= |line| && tbufCnt + k < tbuf.Length
        invariant tbuf[..tbufCnt] == old(tbuf[..tbufCnt])
        invariant tbuf[tbufCnt..tbufCnt + k] == line[..k]
      {
        tbuf[tbufCnt + k] := line[k];
        k := k + 1;
      }
      tbuf[tbufCnt + k] := '\0';
      length := |line|;
    }

    method FlushTable()
      requires Valid()
      modifies this`stdoutBytes, this`tbufCnt
      ensures Valid() && tbufCnt == 0 && Table() == stdoutBytes == old(Table())
    {
      stdoutBytes := stdoutBytes + tbuf[..tbufCnt];
      tbufCnt := 0;
      assert Table() == stdoutBytes;
    }

    method FlushCsv()
      requires Valid()
      modifies this`csvBytes, this`cbufCnt
      ensures Valid() && cbufCnt == 0 && Csv() == old(Csv())
    {
      csvBytes := csvBytes + cbuf[..cbufCnt];
      cbufCnt := 0;
      assert Csv() == csvBytes;
    }

    /** The table buffer may double: there is memory, and the size stays within its limit. */
    predicate MayDouble(granted: bool)
      reads this
    {
      granted && 2 * tbuf.Length <= 0x4000_0000
    }

    /**
     * Makes room for the formatted line. A line that fills the room exactly doubles the table buffer or, failing that,
     * flushes it or, with nothing to flush, aborts; a longer one overruns it.
     */
    method MakeRoom(line: string, granted: bool) returns (outcome: Outcome)
      requires Valid()
      modifies this`tbuf, this`tbufCnt, this`stdoutBytes, tbuf
      ensures Valid() && Table() == old(Table())
      ensures tbuf == old(tbuf) || fresh(tbuf)
      ensures outcome == Overrun <==> |line| > old(Room())
      ensures outcome == Aborted <==> |line| == old(Room()) && old(tbufCnt) == 0 && !old(MayDouble(granted))
      ensures outcome == Added ==>
        |line| < Room() && tbuf[tbufCnt..tbufCnt + |line|] == line && tbuf[tbufCnt + |line|] == '\0'
      ensures |line| < old(Room()) ==> Room() == old(Room())
      ensures |line| == old(Room()) && old(MayDouble(granted)) ==>
        tbuf.Length == 2 * old(tbuf.Length) && stdoutBytes == old(stdoutBytes)
      ensures |line| == old(Room()) && !old(MayDouble(granted)) ==>
        tbuf.Length == old(tbuf.Length) && tbufCnt == 0 && stdoutBytes == old(Table())
    {
      var length := Format(line);
      while tbuf.Length - tbufCnt == length
        invariant Valid() && length == |line| && Table() == old(Table())
        invariant tbuf == old(tbuf) || fresh(tbuf)
        invariant |line| > old(Room()) <==> |line| > Room()
        invariant |line| != old(Room()) ==> Room() == old(Room())
        invariant Room() == |line| ==>
          && tbufCnt == old(tbufCnt) && stdoutBytes == old(stdoutBytes)
          && tbuf.Length == old(tbuf.Length) && MayDouble(granted) == old(MayDouble(granted))
        invariant Room() != |line| == old(Room()) && old(MayDouble(granted)) ==>
          tbuf.Length == 2 * old(tbuf.Length) && stdoutBytes == old(stdoutBytes)
        invariant Room() != |line| == old(Room()) && !old(MayDouble(granted)) ==>
          tbuf.Length == old(tbuf.Length) && old(tbufCnt) > 0 && tbufCnt == 0 && stdoutBytes == old(Table())
        invariant |line| < Room() ==> tbuf[tbufCnt..tbufCnt + |line|] == line && tbuf[tbufCnt + |line|] == '\0'
        decreases if Room() == |line| then 1 else 0
      {
        var grown := GrowBuf(tbuf, granted);
        if grown == null {
          if tbufCnt == 0 {
            assert Table() == stdoutBytes;
            return Aborted;
          }
          FlushTable();
        } else {
          assert grown[..tbufCnt] == grown[..tbuf.Length][..tbufCnt];
          tbuf := grown;
        }
        length := Format(line);
      }
      return if length > tbuf.Length - tbufCnt then Overrun else Added;
    }

    /** The body of the inner loop: a blank becomes a comma if no space follows it, any other byte is copied. */
    method ConvertByte(line: string, start: nat, t: nat, cbw: nat) returns (next: nat)
      requires start <= t < start + |line| < tbuf.Length && tbuf != cbuf && cbw < cbuf.Length
      requires tbuf[start..start + |line|] == line && tbuf[start + |line|] == '\0'
      modifies cbuf
      ensures cbw <= next <= cbuf.Length && cbuf[..next] == old(cbuf[..cbw]) + CsvAt(line, t - start)
    {
      next := cbw;
      assert tbuf[t] == tbuf[start..start + |line|][t - start];
      assert t + 1 < start + |line| ==> tbuf[t + 1] == tbuf[start..start + |line|][t + 1 - start];
      if IsSpace(tbuf[t]) && tbuf[t] != '\n' {
        if t + 1 < tbuf.Length && !IsSpace(tbuf[t + 1]) {
          cbuf[next] := ',';
          next := next + 1;
        }
      } else {
        cbuf[next] := tbuf[t];
        next := next + 1;
      }
    }

    /** The inner loop: converts from position `from` until the CSV buffer is full or the text ends. */
    method ConvertChunk(line: string, start: nat, from: nat, ghost before: string) returns (t: nat)
      requires Valid() && start <= from <= start + |line| == tbufCnt
      requires tbuf[start..tbufCnt] == line && tbuf[tbufCnt] == '\0'
      requires Csv() == before + CsvUpTo(line, from - start)
      modifies this`cbufCnt, cbuf
      ensures Valid() && from <= t <= tbufCnt
      ensures Csv() == before + CsvUpTo(line, t - start)
      ensures t < tbufCnt ==> cbufCnt == cbuf.Length
      ensures t == from < tbufCnt ==> old(cbufCnt) == cbuf.Length
    {
      hide CsvAt, CsvUpTo;
      t := from;
      var cbw := cbufCnt;
      while cbw < cbuf.Length && t < tbufCnt
        invariant from <= t <= tbufCnt && cbw <= cbuf.Length
        invariant t == from ==> cbw == old(cbufCnt)
        invariant csvBytes + cbuf[..cbw] == before + CsvUpTo(line, t - start)
      {
        ghost var held := cbuf[..cbw];
        cbw := ConvertByte(line, start, t, cbw);
        Appended(csvBytes, held, before, line, t - start);
        t := t + 1;
      }
      cbufCnt := cbw;
    }

    /** The outer loop: converts the line just added, growing or flushing the CSV buffer whenever it is full. */
    method ConvertLine(line: string, start: nat)
      requires Valid() && start + |line| == tbufCnt
      requires tbuf[start..tbufCnt] == line && tbuf[tbufCnt] == '\0'
      modifies this`cbuf, this`cbufCnt, this`csvBytes, cbuf
      ensures Valid() && Csv() == old(Csv()) + Convert(line)
      ensures cbuf == old(cbuf) || fresh(cbuf)
    {
      assert CsvUpTo(line, 0) == "";
      hide CsvUpTo;
      var t := start;
      while t != tbufCnt
        invariant Valid() && start <= t <= tbufCnt
        invariant cbuf == old(cbuf) || fresh(cbuf)
        invariant Csv() == old(Csv()) + CsvUpTo(line, t - start)
        decreases tbufCnt - t, if cbufCnt == cbuf.Length then 1 else 0
      {
        t := ConvertChunk(line, start, t, old(Csv()));
        if t != tbufCnt {
          var granted: bool := *;
          var grown := GrowBuf(cbuf, granted);
          if grown == null {
            FlushCsv();
          } else {
            assert grown[..cbufCnt] == grown[..cbuf.Length][..cbufCnt];
            cbuf := grown;
          }
        }
      }
    }

    /**
     * Adds a formatted line. The table gains the line and the CSV text its one-shot conversion, however the buffers
     * grow or are flushed on the way; a line longer than the room left, and only such a line, overruns the buffer.
     */
    method AddLine(line: string, granted: bool) returns (outcome: Outcome)
      requires Valid()
      modifies this, tbuf, cbuf
      ensures Valid() && csvOpen == old(csvOpen)
      ensures tbuf == old(tbuf) || fresh(tbuf)
      ensures cbuf == old(cbuf) || fresh(cbuf)
      ensures outcome == Overrun <==> |line| > old(Room())
      ensures outcome == Aborted <==> |line| == old(Room()) && old(tbufCnt) == 0 && !old(MayDouble(granted))
      ensures outcome == Added ==> Table() == old(Table()) + line
      ensures outcome == Added ==> Csv() == old(Csv()) + if csvOpen then Convert(line) else ""
      ensures outcome != Added ==> Table() == old(Table()) && Csv() == old(Csv())
      ensures |line| < old(Room()) ==> outcome == Added && Room() == old(Room()) - |line|
    {
      hide Convert;
      outcome := MakeRoom(line, granted);
      if outcome == Added {
        var start := tbufCnt;
        tbufCnt := tbufCnt + |line|;
        assert tbuf[..tbufCnt] == tbuf[..start] + tbuf[start..tbufCnt];
        Associative(stdoutBytes, tbuf[..start], line);
        assert Table() == old(Table()) + line;
        if csvOpen {
          ConvertLine(line, start);
        }
      }
    }

    /** `ct_fini_info`: writes out what both buffers still hold. */
    method Finish()
      requires Valid()
      modifies this`stdoutBytes, this`csvBytes
      ensures stdoutBytes == old(Table()) && csvBytes == old(Csv())
    {
      if tbufCnt != 0 {
        stdoutBytes := stdoutBytes + tbuf[..tbufCnt];
      }
      if cbufCnt != 0 {
        csvBytes := csvBytes + cbuf[..cbufCnt];
      }
    }
  }

  /** A whole report: every line added in turn, then the buffers written out. */
  method Report(lines: seq<string>, csvOpen: bool) returns (outcome: Outcome, table: string, csv: string)
    ensures outcome == Added ==> table == Concat(lines) && csv == if csvOpen then ConvertAll(lines) else ""
    ensures |Concat(lines)| < 4096 ==> outcome == Added
  {
    assert lines[..0] == [] && lines[..|lines|] == lines;
    assert Concat([]) == "" && ConvertAll([]) == "";
    hide Concat, ConvertAll, Convert;
    var info := new Info(csvOpen);
    outcome := Added;
    var k := 0;
    while k < |lines| && outcome == Added
      invariant 0 <= k <= |lines|
      invariant info.Valid() && fresh(info) && fresh(info.tbuf) && fresh(info.cbuf) && info.csvOpen == csvOpen
      invariant outcome == Added ==> info.Table() == Concat(lines[..k])
      invariant outcome == Added ==> info.Csv() == if csvOpen then ConvertAll(lines[..k]) else ""
      invariant |Concat(lines)| < 4096 ==> outcome == Added && info.Room() == 4096 - |Concat(lines[..k])|
    {
      ConcatStep(lines, k);
      ConcatGrows(lines, k + 1);
      ghost var text, cells := info.Table(), info.Csv();
      var granted: bool := *;
      outcome := info.AddLine(lines[k], granted);
      assert outcome == Added ==> info.Table() == text + lines[k];
      assert outcome == Added ==> info.Csv() == cells + if csvOpen then Convert(lines[k]) else "";
      k := k + 1;
    }
    info.Finish();
    table, csv := info.stdoutBytes, info.csvBytes;
  }

  /** Two lines that would each fit an empty buffer, but not together, overrun it: the guard only sees an exact fill. */
  method SecondLineOverruns(first: string, second: string, csvOpen: bool, granted: bool) returns (outcome: Outcome)
    requires |first| < 4096 && |second| < 4096 < |first| + |second|
    ensures outcome == Overrun
  {
    var info := new Info(csvOpen);
    outcome := info.AddLine(first, granted);
    outcome := info.AddLine(second, granted);
  }
}

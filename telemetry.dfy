/**
 * The telemetry line sent to the device once per cycle:
 * "4;TIME:;<time>;CPU:;<cpu>%;MEM:;<used> / <total>;Proc:;<count>".
 * The CPU load and the two memory figures reach the line as text rendered
 * from doubles; the model takes that text as given.
 */
module Telemetry {
  import opened Wrappers
  import opened JavaString
  import opened Decimal
  import opened Timestamp

  const INT_MIN: int := -0x8000_0000
  const INT_MAX: int := 0x7fff_ffff

  /** One reading: the time of day, the CPU text, both memory texts and the process count (a Java int). */
  datatype Sample = Sample(time: Time, cpu: string, used: string, total: string, processes: int)

  /** What the sampling code can produce: a valid time and a 32-bit process count. */
  predicate Encodable(s: Sample) {
    ValidTime(s.time) && INT_MIN <= s.processes <= INT_MAX
  }

  /** Text fields that hold no ';', and a used-memory text without '/', so that the line can be read back. */
  predicate Decodable(s: Sample) {
    && Encodable(s)
    && ';' !in s.cpu && ';' !in s.used && ';' !in s.total
    && '/' !in s.used
  }

  /** The memory text: used and total joined by " / ". */
  function MemoryField(used: string, total: string): (m: string)
    ensures |m| == |used| + 3 + |total|
    ensures m[..|used|] == used && m[|used|..|used| + 3] == " / " && m[|used| + 3..] == total
  {
    used + " / " + total
  }

  /** The nine fields of a line: the marker "4", four "key:" names and their four values. */
  function LineFields(timestamp: string, cpu: string, memory: string, count: string): seq<string> {
    ["4", "TIME:", timestamp, "CPU:", cpu + "%", "MEM:", memory, "Proc:", count]
  }

  /** The info string, concatenated as the publishing loop builds it: its nine fields joined by ';'. */
  function InfoLine(timestamp: string, cpu: string, memory: string, threads: int): (line: string)
    ensures line == Join(LineFields(timestamp, cpu, memory, IntToString(threads)), ';')
  {
    var count := IntToString(threads);
    var line :=
      "4;" + "TIME:;" + timestamp + [';']
      + "CPU:;" + cpu + "%;"
      + "MEM:;" + memory + [';']
      + "Proc:;" + count;
    JoinNine(LineFields(timestamp, cpu, memory, count), ';');
    InfoLineNested(timestamp, cpu, memory, count);
    line
  }

  /** The line of one sample: its nine fields joined by ';'. */
  function Encode(s: Sample): (line: string)
    requires ValidTime(s.time)
    ensures line == Join(Fields(s), ';')
  {
    InfoLine(Format(s.time), s.cpu, MemoryField(s.used, s.total), s.processes)
  }

  /** The fields of a line joined by a separator. */
  function Join(fields: seq<string>, sep: char): string
    requires 1 <= |fields|
  {
    if |fields| == 1 then fields[0] else fields[0] + [sep] + Join(fields[1..], sep)
  }

  /** The text between consecutive separators, as a receiver splitting on `sep` sees it. */
  function Split(s: string, sep: char): (fields: seq<string>)
    ensures 1 <= |fields|
    ensures forall k :: 0 <= k < |fields| ==> sep !in fields[k]
    ensures Join(fields, sep) == s
    decreases |s|
  {
    var i := IndexOf(s, sep);
    if i < 0 then [s]
    else
      var rest := Split(s[i + 1..], sep);
      var fields := [s[..i]] + rest;
      assert fields[1..] == rest;
      assert s == s[..i] + [sep] + s[i + 1..];
      fields
  }

  /** `IndexOf` finds the first separator when it stands at `i` and nowhere before. */
  lemma IndexOfAt(s: string, c: char, i: nat)
    requires i < |s| && s[i] == c && c !in s[..i]
    ensures IndexOf(s, c) == i
  {
    assert c in s;
  }

  /** Splitting undoes joining fields that hold no separator. */
  lemma {:induction false} SplitJoin(fields: seq<string>, sep: char)
    requires 1 <= |fields|
    requires forall k :: 0 <= k < |fields| ==> sep !in fields[k]
    ensures Split(Join(fields, sep), sep) == fields
    decreases |fields|
  {
    var s := Join(fields, sep);
    if |fields| == 1 {
      assert IndexOf(s, sep) == -1;
    } else {
      var head, tail := fields[0], Join(fields[1..], sep);
      assert s == head + [sep] + tail;
      assert s[..|head|] == head;
      IndexOfAt(s, sep, |head|);
      assert s[|head| + 1..] == tail;
      SplitJoin(fields[1..], sep);
      assert Split(s, sep) == [head] + fields[1..];
    }
  }

  /** The nine fields of a sample's line. */
  function Fields(s: Sample): seq<string>
    requires ValidTime(s.time)
  {
    LineFields(Format(s.time), s.cpu, MemoryField(s.used, s.total), IntToString(s.processes))
  }

  /** Nine fields joined, written out field by field. */
  lemma JoinNine(f: seq<string>, sep: char)
    requires |f| == 9
    ensures Join(f, sep)
      == f[0] + [sep] + (f[1] + [sep] + (f[2] + [sep] + (f[3] + [sep] + (f[4] + [sep]
         + (f[5] + [sep] + (f[6] + [sep] + (f[7] + [sep] + f[8])))))))
  {
    JoinCons(f[7..], sep);
    JoinCons(f[6..], sep);
    JoinCons(f[5..], sep);
    JoinCons(f[4..], sep);
    JoinCons(f[3..], sep);
    JoinCons(f[2..], sep);
    JoinCons(f[1..], sep);
    JoinCons(f, sep);
    assert Join(f[8..], sep) == f[8];
  }

  /** The info string regrouped field by field, as `Join` builds it. */
  lemma InfoLineNested(timestamp: string, cpu: string, memory: string, count: string)
    ensures "4;" + "TIME:;" + timestamp + [';'] + "CPU:;" + cpu + "%;" + "MEM:;" + memory + [';'] + "Proc:;" + count
      == "4" + [';'] + ("TIME:" + [';'] + (timestamp + [';'] + ("CPU:" + [';'] + (cpu + "%" + [';']
         + ("MEM:" + [';'] + (memory + [';'] + ("Proc:" + [';'] + count)))))))
  {
  }

  lemma JoinCons(fields: seq<string>, sep: char)
    requires 2 <= |fields|
    ensures Join(fields, sep) == fields[0] + [sep] + Join(fields[1..], sep)
    ensures fields[1..][1..] == fields[2..]
  {
  }

  /**
   * With no ';' inside the text fields, splitting the line on ';' gives exactly
   * the nine fields, and the leading marker is the number of key/value pairs.
   */
  lemma SplitEncode(s: Sample)
    requires Decodable(s)
    ensures Split(Encode(s), ';') == Fields(s)
    ensures |Fields(s)| == 9 && Fields(s)[0] == NatToString((|Fields(s)| - 1) / 2)
  {
    var f := Fields(s);
    assert ';' !in Format(s.time) by {
      var t := Format(s.time);
      forall k | 0 <= k < |t| ensures t[k] != ';' { }
    }
    assert ';' !in IntToString(s.processes) by {
      var n := IntToString(s.processes);
      forall k | 0 <= k < |n| ensures n[k] != ';' { if k > 0 { assert IsDigit(n[k]); } }
    }
    assert ';' !in s.cpu + "%";
    assert ';' !in MemoryField(s.used, s.total);
    SplitJoin(f, ';');
  }

  /** The CPU text without the '%' that follows it. */
  function StripPercent(field: string): Option<string> {
    if 1 <= |field| && field[|field| - 1] == '%' then Some(field[..|field| - 1]) else None
  }

  /** Used and total memory texts, cut at the first '/' with its surrounding spaces. */
  function SplitMemory(field: string): Option<(string, string)> {
    var k := IndexOf(field, '/');
    if 1 <= k && k + 1 < |field| && field[k - 1] == ' ' && field[k + 1] == ' '
    then Some((field[..k - 1], field[k + 2..]))
    else None
  }

  /** Reads a line back into a sample; None unless it has the nine fields and the fixed names. */
  function Decode(line: string): (r: Option<Sample>)
    ensures r.Some? ==> ValidTime(r.value.time)
  {
    var f := Split(line, ';');
    if |f| != 9 || f[0] != "4" || f[1] != "TIME:" || f[3] != "CPU:" || f[5] != "MEM:" || f[7] != "Proc:"
    then None
    else
      match (Parse(f[2]), StripPercent(f[4]), SplitMemory(f[6]), ParseInt(f[8]))
      case (Some(t), Some(cpu), Some((used, total)), Some(n)) => Some(Sample(t, cpu, used, total, n))
      case _ => None
  }

  lemma SplitMemoryField(used: string, total: string)
    requires '/' !in used
    ensures SplitMemory(MemoryField(used, total)) == Some((used, total))
  {
    var m := MemoryField(used, total);
    assert m[..|used| + 1] == used + " ";
    assert m[|used| + 1] == '/';
    assert IndexOf(m, '/') == |used| + 1;
    assert m[..|used|] == used;
    assert m[|used| + 3..] == total;
  }

  /** Encoding then decoding a sample gives the sample back. */
  lemma DecodeEncode(s: Sample)
    requires Decodable(s)
    ensures Decode(Encode(s)) == Some(s)
  {
    SplitEncode(s);
    ParseFormat(s.time);
    assert StripPercent(s.cpu + "%") == Some(s.cpu) by {
      assert (s.cpu + "%")[..|s.cpu|] == s.cpu;
    }
    SplitMemoryField(s.used, s.total);
    ParseIntToString(s.processes);
  }
}

/**
 * The publishing loop: every cycle samples the host, builds the info string
 * and prints it to the port's writer, with `print`, so no line terminator
 * separates one cycle's line from the next.
 */
module Publishing {
  import opened Wrappers
  import opened Decimal
  import opened Timestamp
  import opened Telemetry

  predicate AllEncodable(samples: seq<Sample>) {
    forall k :: 0 <= k < |samples| ==> Encodable(samples[k])
  }

  predicate AllDecodable(samples: seq<Sample>) {
    forall k :: 0 <= k < |samples| ==> Decodable(samples[k])
  }

  /** The stream of one more cycle is the shorter stream followed by that cycle's line. */
  lemma StreamSnoc(written: string, samples: seq<Sample>, i: nat)
    requires AllEncodable(samples) && i < |samples|
    ensures AllEncodable(samples[..i]) && AllEncodable(samples[..i + 1])
    ensures written + Stream(samples[..i + 1]) == written + Stream(samples[..i]) + Encode(samples[i])
  {
    assert samples[..i + 1][..i] == samples[..i];
  }

  /** What the device receives from the given cycles: their lines, back to back. */
  function Stream(samples: seq<Sample>): (out: string)
    requires AllEncodable(samples)
    ensures out == [] <==> |samples| == 0
    decreases |samples|
  {
    if |samples| == 0 then []
    else Stream(samples[..|samples| - 1]) + Encode(samples[|samples| - 1])
  }

  /** Later cycles only append: the output of the first i cycles is a prefix of the output of all. */
  lemma {:induction false} StreamPrefix(samples: seq<Sample>, i: nat)
    requires AllEncodable(samples) && i <= |samples|
    ensures AllEncodable(samples[..i]) && Stream(samples[..i]) <= Stream(samples)
    decreases |samples|
  {
    if i < |samples| {
      var earlier := samples[..|samples| - 1];
      assert earlier[..i] == samples[..i];
      StreamPrefix(earlier, i);
    } else {
      assert samples[..i] == samples;
    }
  }

  /** The writer over the serial port's output stream and what has been flushed through it. */
  class Publisher {
    var written: string

    constructor ()
      ensures written == []
    {
      written := [];
    }

    /** One pass of the loop body: print the sample's line and flush it. */
    method Cycle(sample: Sample)
      requires ValidTime(sample.time)
      modifies this
      ensures written == old(written) + Encode(sample)
    {
      var infoString := Encode(sample);
      written := written + infoString;
    }

    /**
     * The loop, for as many cycles as it runs before the port is deselected;
     * `samples` holds what each cycle read from the host.
     */
    method Run(samples: seq<Sample>)
      requires AllEncodable(samples)
      modifies this
      ensures written == old(written) + Stream(samples)
    {
      var i := 0;
      while i < |samples|
        invariant 0 <= i <= |samples|
        invariant AllEncodable(samples[..i])
        invariant written == old(written) + Stream(samples[..i])
      {
        StreamSnoc(old(written), samples, i);
        Cycle(samples[i]);
        i := i + 1;
      }
      assert samples[..i] == samples;
    }
  }

  /** The number of occurrences of `c` in `s`. */
  function Occurrences(s: string, c: char): nat
    decreases |s|
  {
    if |s| == 0 then 0 else (if s[0] == c then 1 else 0) + Occurrences(s[1..], c)
  }

  lemma {:induction false} OccurrencesAppend(a: string, b: string, c: char)
    ensures Occurrences(a + b, c) == Occurrences(a, c) + Occurrences(b, c)
    decreases |a|
  {
    if |a| == 0 {
      assert a + b == b;
    } else {
      assert (a + b)[0] == a[0];
      assert (a + b)[1..] == a[1..] + b;
      OccurrencesAppend(a[1..], b, c);
    }
  }

  /** A string holds one separator fewer than the fields it splits into. */
  lemma {:induction false} OccurrencesSplit(s: string, sep: char)
    ensures Occurrences(s, sep) == |Split(s, sep)| - 1
    decreases |s|
  {
    var i := JavaString.IndexOf(s, sep);
    if i < 0 {
      NoOccurrences(s, sep);
    } else {
      assert s == s[..i] + [sep] + s[i + 1..];
      OccurrencesAppend(s[..i] + [sep], s[i + 1..], sep);
      OccurrencesAppend(s[..i], [sep], sep);
      NoOccurrences(s[..i], sep);
      OccurrencesSplit(s[i + 1..], sep);
    }
  }

  lemma {:induction false} NoOccurrences(s: string, c: char)
    requires c !in s
    ensures Occurrences(s, c) == 0
    decreases |s|
  {
    if |s| > 0 {
      NoOccurrences(s[1..], c);
    }
  }

  /** Each line carries eight ';', so n cycles put 8 * n of them on the wire. */
  lemma {:induction false} StreamSeparators(samples: seq<Sample>)
    requires AllDecodable(samples)
    ensures AllEncodable(samples)
    ensures Occurrences(Stream(samples), ';') == 8 * |samples|
    decreases |samples|
  {
    if |samples| > 0 {
      var last := samples[|samples| - 1];
      assert AllDecodable(samples[..|samples| - 1]);
      StreamSeparators(samples[..|samples| - 1]);
      OccurrencesAppend(Stream(samples[..|samples| - 1]), Encode(last), ';');
      SplitEncode(last);
      OccurrencesSplit(Encode(last), ';');
    }
  }

  /**
   * Splitting the output of n cycles on ';' gives 8 * n + 1 fields, not 9 * n:
   * with no terminator, each line's count field runs into the next line's marker.
   */
  lemma StreamFields(samples: seq<Sample>)
    requires AllDecodable(samples)
    ensures AllEncodable(samples)
    ensures |Split(Stream(samples), ';')| == 8 * |samples| + 1
    ensures 2 <= |samples| ==> Decode(Stream(samples)) == None
  {
    StreamSeparators(samples);
    OccurrencesSplit(Stream(samples), ';');
  }

  /** Joining two field lists end to front fuses the last field of one with the first of the other. */
  lemma {:induction false} JoinAppend(xs: seq<string>, ys: seq<string>, sep: char)
    requires 1 <= |xs| && 1 <= |ys|
    ensures Join(xs, sep) + Join(ys, sep)
         == Join(xs[..|xs| - 1] + [xs[|xs| - 1] + ys[0]] + ys[1..], sep)
    decreases |xs|
  {
    var fused := xs[..|xs| - 1] + [xs[|xs| - 1] + ys[0]] + ys[1..];
    if |xs| == 1 {
      assert fused == [xs[0] + ys[0]] + ys[1..];
      if |ys| > 1 {
        assert fused[1..] == ys[1..];
      }
    } else {
      JoinAppend(xs[1..], ys, sep);
      assert fused[1..] == xs[1..][..|xs| - 2] + [xs[|xs| - 1] + ys[0]] + ys[1..];
    }
  }

  /** Two consecutive cycles: the first line's count and the second line's "4" arrive as one field. */
  lemma FramesMerge(a: Sample, b: Sample)
    requires Decodable(a) && Decodable(b)
    ensures var f := Split(Encode(a) + Encode(b), ';');
      |f| == 17 && f[8] == IntToString(a.processes) + "4" && f[..8] == Fields(a)[..8] && f[9..] == Fields(b)[1..]
  {
    var fa, fb := Fields(a), Fields(b);
    var f := fa[..8] + [fa[8] + fb[0]] + fb[1..];
    assert Split(Encode(a) + Encode(b), ';') == f by {
      FieldsHoldNoSeparator(a);
      FieldsHoldNoSeparator(b);
      SplitFused(fa, fb, ';');
    }
    assert f[9..] == fb[1..];
    assert f[..8] == fa[..8];
  }

  /** Splitting two joined field lists gives both lists with the boundary fields fused. */
  lemma SplitFused(xs: seq<string>, ys: seq<string>, sep: char)
    requires 1 <= |xs| && 1 <= |ys|
    requires forall k :: 0 <= k < |xs| ==> sep !in xs[k]
    requires forall k :: 0 <= k < |ys| ==> sep !in ys[k]
    ensures Split(Join(xs, sep) + Join(ys, sep), sep)
         == xs[..|xs| - 1] + [xs[|xs| - 1] + ys[0]] + ys[1..]
  {
    JoinAppend(xs, ys, sep);
    var n := |xs| - 1;
    var fused := xs[..n] + [xs[n] + ys[0]] + ys[1..];
    FreeOfConcat(xs[..n], [xs[n] + ys[0]], sep);
    FreeOfConcat(xs[..n] + [xs[n] + ys[0]], ys[1..], sep);
    SplitJoin(fused, sep);
  }

  /** No field of either list holds `sep`, so no field of both together does. */
  lemma FreeOfConcat(a: seq<string>, b: seq<string>, sep: char)
    requires forall k :: 0 <= k < |a| ==> sep !in a[k]
    requires forall k :: 0 <= k < |b| ==> sep !in b[k]
    ensures forall k :: 0 <= k < |a + b| ==> sep !in (a + b)[k]
  {
  }

  lemma FieldsHoldNoSeparator(s: Sample)
    requires Decodable(s)
    ensures |Fields(s)| == 9
    ensures forall k :: 0 <= k < 9 ==> ';' !in Fields(s)[k]
  {
    SplitEncode(s);
  }
}

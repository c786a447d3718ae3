/** The samples sidecar: one JSON value per line, read back line by line with a
    filter and a page. */
module Samples {
  import opened Json
  import opened Sorting
  import opened WhereDsl

  predicate IsWhitespace(c: char) {
    || c in "\t\n\r \U{000B}\U{000C}\U{0085}\U{00A0}\U{1680}\U{2028}\U{2029}\U{202F}\U{205F}\U{3000}"
    || '\U{2000}' <= c <= '\U{200A}'
  }

  /** `line.trim().is_empty()` */
  predicate Blank(line: string) {
    forall c | c in line :: IsWhitespace(c)
  }

  /** Compact JSON text parses back, is never blank and holds no line break. */
  ghost predicate Exact(codec: JsonCodec) {
    Inverse(codec) && forall v :: OneLine(codec.render(v))
  }

  predicate OneLine(s: string) {
    !Blank(s) && '\n' !in s && '\r' !in s
  }

  // ----- lines -----

  /** The part of text before its first line feed. */
  function UpToNewline(text: string): (n: nat)
    ensures n <= |text| && '\n' !in text[..n] && (n < |text| ==> text[n] == '\n')
  {
    if text == "" || text[0] == '\n' then 0
    else
      var n := 1 + UpToNewline(text[1..]);
      assert text[..n] == [text[0]] + text[1..][..n - 1];
      n
  }

  function StripCr(line: string): string {
    if line != "" && line[|line| - 1] == '\r' then line[..|line| - 1] else line
  }

  /** `str::lines`: lines end at "\n" or "\r\n"; a missing last ending is fine. */
  function Lines(text: string): seq<string>
    decreases |text|
  {
    if text == "" then []
    else if UpToNewline(text) == |text| then [text]
    else [StripCr(text[..UpToNewline(text)])] + Lines(text[UpToNewline(text) + 1..])
  }

  lemma LineFirst(line: string, rest: string)
    requires OneLine(line)
    ensures Lines(line + "\n" + rest) == [line] + Lines(rest)
  {
    var text := line + "\n" + rest;
    assert text[|line|] == '\n';
    NewlineAt(text, |line|);
    assert text[..|line|] == line && text[|line| + 1..] == rest;
    assert line != "" ==> line[|line| - 1] in line;
  }

  lemma {:induction false} NewlineAt(text: string, k: nat)
    requires k < |text| && text[k] == '\n' && '\n' !in text[..k]
    ensures UpToNewline(text) == k
  {
    if k > 0 {
      assert text[0] == text[..k][0];
      assert text[1..][..k - 1] == text[..k][1..];
      NewlineAt(text[1..], k - 1);
    }
  }

  // ----- writing -----

  function SamplesText(samples: seq<Json>, codec: JsonCodec): string {
    if samples == [] then ""
    else codec.render(samples[0]) + "\n" + SamplesText(samples[1..], codec)
  }

  lemma {:induction false} SamplesTextSnoc(samples: seq<Json>, s: Json, codec: JsonCodec)
    ensures SamplesText(samples + [s], codec) == SamplesText(samples, codec) + codec.render(s) + "\n"
  {
    if samples == [] {
      assert samples + [s] == [s];
      assert [s][1..] == [];
    } else {
      var rest := samples[1..];
      assert (samples + [s])[0] == samples[0] && (samples + [s])[1..] == rest + [s];
      SamplesTextSnoc(rest, s, codec);
      var head := codec.render(samples[0]) + "\n";
      assert head + (SamplesText(rest, codec) + codec.render(s) + "\n")
          == (head + SamplesText(rest, codec)) + codec.render(s) + "\n";
    }
  }

  method RenderSamples(samples: seq<Json>, codec: JsonCodec) returns (buf: string)
    ensures buf == SamplesText(samples, codec)
  {
    buf := "";
    for i := 0 to |samples|
      invariant buf == SamplesText(samples[..i], codec)
    {
      SamplesTextSnoc(samples[..i], samples[i], codec);
      assert samples[..i] + [samples[i]] == samples[..i + 1];
      var line := codec.render(samples[i]);
      buf := buf + line;
      buf := buf + "\n";
    }
    assert samples[..|samples|] == samples;
  }

  // ----- reading -----

  datatype SamplesQuery = SamplesQuery(offset: nat, limit: Option<nat>, where_: Option<Predicate>)

  predicate Wanted(where_: Option<Predicate>, v: Json) {
    where_.None? || Eval(where_.value, v)
  }

  predicate Readable(line: string, codec: JsonCodec) {
    Blank(line) || codec.parse(line).Some?
  }

  /** The wanted values on readable lines, in order. */
  function Wanteds(lines: seq<string>, where_: Option<Predicate>, codec: JsonCodec): seq<Json> {
    if lines == [] then []
    else
      var n := |lines| - 1;
      var v := codec.parse(lines[n]);
      Wanteds(lines[..n], where_, codec)
      + if !Blank(lines[n]) && v.Some? && Wanted(where_, v.value) then [v.value] else []
  }

  /** The lines up to the first that is neither blank nor JSON. */
  function FirstUnreadable(lines: seq<string>, codec: JsonCodec): (n: nat)
    ensures n <= |lines| && (forall i | 0 <= i < n :: Readable(lines[i], codec))
    ensures n < |lines| ==> !Readable(lines[n], codec)
  {
    if lines == [] || !Readable(lines[0], codec) then 0 else 1 + FirstUnreadable(lines[1..], codec)
  }

  function LimitOf(q: SamplesQuery): int {
    if q.limit.Some? then q.limit.value else -1
  }

  /** Reading returns filter, then drop, then take, and fails exactly when it
      reaches an unreadable line before one match beyond the page has been seen. */
  method ReadSamples(text: string, q: SamplesQuery, codec: JsonCodec) returns (r: Result<seq<Json>>)
    ensures var lines := Lines(text);
            var bad := FirstUnreadable(lines, codec);
            var rows := Wanteds(lines[..bad], q.where_, codec);
            && (r.Ok? <==> bad == |lines| || (q.limit.Some? && |rows| > q.offset + q.limit.value))
            && (r.Ok? ==> r.value == Page(rows, q.offset, LimitOf(q)))
  {
    hide Wanteds, FirstUnreadable, Lines, Blank;
    NoLines(q.where_, codec);
    var lines := Lines(text);
    ghost var bad := FirstUnreadable(lines, codec);
    ghost var rows := Wanteds(lines[..bad], q.where_, codec);
    var matched := 0;
    var out: seq<Json> := [];
    var i := 0;
    while i < |lines|
      invariant 0 <= i <= bad <= |lines|
      invariant var seen := Wanteds(lines[..i], q.where_, codec);
          matched == |seen| && out == Page(seen, q.offset, -1)
      invariant q.limit.Some? ==> |out| <= q.limit.value
      decreases |lines| - i
    {
      var line := lines[i];
      ghost var seen := Wanteds(lines[..i], q.where_, codec);
      if !Blank(line) {
        var val := codec.parse(line);
        if val.None? {
          assert i == bad;
          return Err("Failed to parse sample line");
        }
        assert i < bad;
        StepWanteds(lines, i, q.where_, codec);
        if Wanted(q.where_, val.value) {
          if matched < q.offset {
            matched := matched + 1;
          } else {
            if q.limit.Some? && |out| >= q.limit.value {
              WantedsGrow(lines, i + 1, bad, q.where_, codec);
              assert out == Page(rows, q.offset, LimitOf(q));
              return Ok(out);
            }
            matched := matched + 1;
            out := out + [val.value];
          }
        }
      } else {
        assert i < bad;
        StepWanteds(lines, i, q.where_, codec);
      }
      i := i + 1;
    }
    assert lines[..bad] == lines[..i];
    r := Ok(out);
  }

  lemma NoLines(where_: Option<Predicate>, codec: JsonCodec)
    ensures Wanteds([], where_, codec) == []
  {
  }

  lemma StepWanteds(lines: seq<string>, i: nat, where_: Option<Predicate>, codec: JsonCodec)
    requires i < |lines|
    ensures var v := codec.parse(lines[i]);
            Wanteds(lines[..i + 1], where_, codec)
            == Wanteds(lines[..i], where_, codec)
               + if !Blank(lines[i]) && v.Some? && Wanted(where_, v.value) then [v.value] else []
  {
    assert lines[..i + 1][..i] == lines[..i] && lines[..i + 1][i] == lines[i];
  }

  lemma {:induction false} WantedsGrow(lines: seq<string>, i: nat, j: nat, where_: Option<Predicate>,
      codec: JsonCodec)
    requires i <= j <= |lines|
    ensures Wanteds(lines[..i], where_, codec) <= Wanteds(lines[..j], where_, codec)
    decreases j - i
  {
    if i < j {
      WantedsGrow(lines, i, j - 1, where_, codec);
      StepWanteds(lines, j - 1, where_, codec);
    }
  }

  // ----- main results -----

  function Filtered(samples: seq<Json>, where_: Option<Predicate>): seq<Json> {
    if samples == [] then []
    else
      var n := |samples| - 1;
      Filtered(samples[..n], where_) + if Wanted(where_, samples[n]) then [samples[n]] else []
  }

  lemma {:induction false} LinesOfSamples(samples: seq<Json>, codec: JsonCodec)
    requires Exact(codec)
    ensures |Lines(SamplesText(samples, codec))| == |samples|
    ensures forall i | 0 <= i < |samples| ::
        Lines(SamplesText(samples, codec))[i] == codec.render(samples[i])
  {
    if samples != [] {
      LinesOfSamples(samples[1..], codec);
      LineFirst(codec.render(samples[0]), SamplesText(samples[1..], codec));
    }
  }

  lemma {:induction false} WantedsAreFiltered(samples: seq<Json>, lines: seq<string>,
      where_: Option<Predicate>, codec: JsonCodec)
    requires Exact(codec) && |lines| == |samples|
    requires forall i | 0 <= i < |samples| :: lines[i] == codec.render(samples[i])
    ensures Wanteds(lines, where_, codec) == Filtered(samples, where_)
  {
    if samples != [] {
      var n := |samples| - 1;
      WantedsAreFiltered(samples[..n], lines[..n], where_, codec);
      assert codec.parse(lines[n]) == Some(samples[n]) && !Blank(lines[n]);
    }
  }

  /** Reading what was written gives filter, drop, take of the samples written;
      with no filter and no page, the samples themselves. */
  method WriteThenRead(samples: seq<Json>, q: SamplesQuery, codec: JsonCodec) returns (r: Result<seq<Json>>)
    requires Exact(codec)
    ensures r == Ok(Page(Filtered(samples, q.where_), q.offset, LimitOf(q)))
    ensures q == SamplesQuery(0, None, None) ==> r == Ok(samples)
  {
    var text := RenderSamples(samples, codec);
    r := ReadSamples(text, q, codec);
    ghost var lines := Lines(text);
    LinesOfSamples(samples, codec);
    forall i | 0 <= i < |lines|
      ensures Readable(lines[i], codec)
    {
      assert codec.parse(codec.render(samples[i])).Some?;
    }
    assert lines[..|lines|] == lines;
    WantedsAreFiltered(samples, lines, q.where_, codec);
    NoFilterKeepsAll(samples);
  }

  lemma {:induction false} NoFilterKeepsAll(samples: seq<Json>)
    ensures Filtered(samples, None) == samples
  {
    if samples != [] {
      var n := |samples| - 1;
      NoFilterKeepsAll(samples[..n]);
      assert samples == samples[..n] + [samples[n]];
    }
  }

  /** The first n pages of a given size, one after another. */
  function Pages(rows: seq<Json>, size: nat, n: nat): seq<Json> {
    if n == 0 then [] else Pages(rows, size, n - 1) + Page(rows, (n - 1) * size, size)
  }

  /** Consecutive pages join up to a prefix of the rows, and to all of them once
      there are enough. */
  lemma {:induction false} PagesJoin(rows: seq<Json>, size: nat, n: nat)
    ensures Pages(rows, size, n) == rows[..if n * size < |rows| then n * size else |rows|]
  {
    if n > 0 {
      PagesJoin(rows, size, n - 1);
      assert n * size == (n - 1) * size + size;
    }
  }
}

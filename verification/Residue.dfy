/** Module chunks: the rows no definition covers (`backend/ingestion/chunker.py`, `_module_residue`,
    `_whole_file_module`, `_window_module`). Rows count from 0. */
module Residue {

  /** An inclusive range of rows. */
  datatype Span = Span(start: nat, end: nat)

  predicate Holds(span: Span, row: int) { span.start <= row <= span.end }

  ghost predicate Held(spans: seq<Span>, row: int) { exists i :: 0 <= i < |spans| && Holds(spans[i], row) }

  predicate IsSpace(c: char) { c == ' ' || c == '\t' || c == '\n' || c == '\r' || c == '\U{0B}' || c == '\U{0C}' }

  predicate IsBlank(line: string) { forall i :: 0 <= i < |line| ==> IsSpace(line[i]) }

  /** A line is blank when it has nothing but blanks, tabs, line and page breaks. */
  lemma BlankIsWhiteSpace(line: string)
    ensures IsBlank(line) <==> forall c <- line :: c in " \t\n\r\U{0B}\U{0C}"
  {
    assert forall c :: IsSpace(c) <==> c in " \t\n\r\U{0B}\U{0C}";
    forall i | 0 <= i < |line| ensures line[i] in line {}
  }

  ghost predicate Clear(spans: seq<Span>, a: int, b: int) { forall r :: a <= r <= b ==> !Held(spans, r) }

  /** A row the residue keeps: it lies on or between two non-blank rows with no covered row in the stretch. */
  ghost predicate Kept(lines: seq<string>, spans: seq<Span>, r: int) {
    exists a, b :: 0 <= a <= r <= b < |lines| && !IsBlank(lines[a]) && !IsBlank(lines[b]) && Clear(spans, a, b)
  }

  function Size(span: Span): int { span.end - span.start + 1 }

  ghost predicate Ascending(spans: seq<Span>) { forall i, j :: 0 <= i < j < |spans| ==> spans[i].end < spans[j].start }

  /** Non-empty ascending ranges, each within the window; one that touches the next is full. */
  ghost predicate Windowed(spans: seq<Span>, window: int) {
    && Ascending(spans)
    && (forall i :: 0 <= i < |spans| ==> spans[i].start <= spans[i].end && (window > 0 ==> Size(spans[i]) <= window))
    && (forall i, j :: 0 <= i < |spans| && 0 <= j < |spans| && Holds(spans[j], spans[i].end + 1) ==>
          window > 0 && Size(spans[i]) == window)
  }

  method WindowModule(start: nat, end: int, window: int) returns (out: seq<Span>)
    requires start <= end
    ensures Windowed(out, window)
    ensures forall r :: Held(out, r) <==> start <= r <= end
  {
    if window <= 0 || end - start + 1 <= window {
      out := [Span(start, end)];
      assert Holds(out[0], start);
      return;
    }
    out := [];
    var row := start;
    while row <= end
      invariant start <= row <= end + 1
      invariant Windowed(out, window)
      invariant forall i :: 0 <= i < |out| ==> out[i].end < row
      invariant row <= end ==> forall i :: 0 <= i < |out| ==> Size(out[i]) == window
      invariant forall r :: Held(out, r) <==> start <= r < row
      decreases end - row
    {
      var winEnd := if row + window - 1 <= end then row + window - 1 else end;
      HeldAfter(out, Span(row, winEnd));
      WindowedAfter(out, Span(row, winEnd), window);
      out := out + [Span(row, winEnd)];
      row := winEnd + 1;
    }
  }

  lemma WindowedAfter(spans: seq<Span>, span: Span, window: int)
    requires Windowed(spans, window) && window > 0 && span.start <= span.end && Size(span) <= window
    requires forall i :: 0 <= i < |spans| ==> spans[i].end < span.start && Size(spans[i]) == window
    ensures Windowed(spans + [span], window)
  {}

  lemma HeldAfter(spans: seq<Span>, span: Span)
    ensures forall r :: Held(spans + [span], r) <==> Held(spans, r) || Holds(span, r)
  {
    var more := spans + [span];
    forall r ensures Held(more, r) <==> Held(spans, r) || Holds(span, r) {
      if Held(spans, r) {
        var i :| 0 <= i < |spans| && Holds(spans[i], r);
        assert Holds(more[i], r);
      }
      if Holds(span, r) {
        assert Holds(more[|spans|], r);
      }
    }
  }

  lemma HeldTogether(a: seq<Span>, b: seq<Span>)
    ensures forall r :: Held(a + b, r) <==> Held(a, r) || Held(b, r)
  {
    forall r ensures Held(a + b, r) <==> Held(a, r) || Held(b, r) {
      if Held(a, r) {
        var i :| 0 <= i < |a| && Holds(a[i], r);
        assert Holds((a + b)[i], r);
      }
      if Held(b, r) {
        var i :| 0 <= i < |b| && Holds(b[i], r);
        assert Holds((a + b)[|a| + i], r);
      }
    }
  }

  /** A later block of windows, at least one row away. */
  lemma WindowedTogether(a: seq<Span>, b: seq<Span>, window: int, row: int)
    requires Windowed(a, window) && Windowed(b, window)
    requires forall r :: Held(a, r) ==> r < row - 1
    requires forall r :: Held(b, r) ==> r >= row
    ensures Windowed(a + b, window)
  {
    var all := a + b;
    forall i | 0 <= i < |a| ensures a[i].end < row - 1 {
      assert Holds(a[i], a[i].end) && Held(a, a[i].end);
    }
    forall i | 0 <= i < |b| ensures b[i].start >= row {
      assert Holds(b[i], b[i].start) && Held(b, b[i].start);
    }
  }

  method MarkCovered(covered: array<bool>, spans: seq<Span>)
    requires forall r :: 0 <= r < covered.Length ==> !covered[r]
    modifies covered
    ensures forall r :: 0 <= r < covered.Length ==> (covered[r] <==> Held(spans, r))
  {
    for i := 0 to |spans|
      invariant forall r :: 0 <= r < covered.Length ==> (covered[r] <==> Held(spans[..i], r))
    {
      assert spans[..i + 1] == spans[..i] + [spans[i]];
      HeldAfter(spans[..i], spans[i]);
      MarkSpan(covered, spans[i]);
    }
    assert spans[..|spans|] == spans;
  }

  method MarkSpan(covered: array<bool>, span: Span)
    modifies covered
    ensures forall r :: 0 <= r < covered.Length ==> (covered[r] <==> old(covered[r]) || Holds(span, r))
  {
    var last := if span.end < covered.Length - 1 then span.end else covered.Length - 1;
    var row := span.start;
    while row <= last
      invariant span.start <= row
      invariant forall r :: 0 <= r < covered.Length ==>
          (covered[r] <==> old(covered[r]) || (span.start <= r < row && r <= span.end))
      decreases last - row
    {
      covered[row] := true;
      row := row + 1;
    }
  }

  /** Drop blank rows at both ends. */
  method Trim(lines: seq<string>, start: nat, end: int) returns (s: nat, e: int)
    requires start <= end + 1 && end < |lines|
    ensures start <= s <= end + 1 && e <= end && s <= e + 1
    ensures forall r :: start <= r < s ==> IsBlank(lines[r])
    ensures forall r :: e < r <= end && r >= s ==> IsBlank(lines[r])
    ensures s <= e ==> !IsBlank(lines[s]) && !IsBlank(lines[e])
  {
    s, e := start, end;
    while s <= e && IsBlank(lines[s])
      invariant start <= s <= end + 1
      invariant forall r :: start <= r < s ==> IsBlank(lines[r])
    {
      s := s + 1;
    }
    while e >= s && IsBlank(lines[e])
      invariant s - 1 <= e <= end
      invariant s <= end ==> !IsBlank(lines[s])
      invariant forall r :: e < r <= end && r >= s ==> IsBlank(lines[r])
    {
      e := e - 1;
    }
  }

  /** Within a maximal uncovered run, the kept rows are those that trimming leaves. */
  lemma RunKeeps(lines: seq<string>, spans: seq<Span>, start: nat, end: int, s: nat, e: int, r: int)
    requires start <= end < |lines| && Clear(spans, start, end)
    requires start > 0 ==> Held(spans, start - 1)
    requires end + 1 < |lines| ==> Held(spans, end + 1)
    requires start <= s <= end + 1 && e <= end && s <= e + 1
    requires forall r :: start <= r < s ==> IsBlank(lines[r])
    requires forall r :: e < r <= end && r >= s ==> IsBlank(lines[r])
    requires s <= e ==> !IsBlank(lines[s]) && !IsBlank(lines[e])
    requires start <= r <= end
    ensures Kept(lines, spans, r) <==> s <= r <= e
  {
    if Kept(lines, spans, r) {
      var a, b :| 0 <= a <= r <= b < |lines| && !IsBlank(lines[a]) && !IsBlank(lines[b]) && Clear(spans, a, b);
      assert a >= start;
      assert b <= end;
    }
  }

  /** Module chunks for the uncovered rows: they hold exactly the kept rows. */
  method ModuleResidue(lines: seq<string>, spans: seq<Span>, window: int) returns (out: seq<Span>)
    ensures Windowed(out, window)
    ensures forall r :: Held(out, r) <==> Kept(lines, spans, r)
  {
    var n := |lines|;
    var covered := new bool[n](_ => false);
    MarkCovered(covered, spans);
    out := [];
    var row := 0;
    while row < n
      invariant 0 <= row <= n
      invariant forall r :: 0 <= r < n ==> (covered[r] <==> Held(spans, r))
      invariant 0 < row < n ==> Held(spans, row - 1) || Held(spans, row)
      invariant Windowed(out, window)
      invariant forall r :: Held(out, r) ==> 0 <= r < row && !Held(spans, r)
      invariant forall r :: 0 <= r < row ==> (Held(out, r) <==> Kept(lines, spans, r))
    {
      if covered[row] {
        row := row + 1;
      } else {
        var start := row;
        while row < n && !covered[row]
          invariant start <= row <= n
          invariant Clear(spans, start, row - 1)
        {
          row := row + 1;
        }
        out := AddRun(lines, spans, window, out, start, row - 1);
      }
    }
  }

  /** One maximal uncovered run. */
  method AddRun(lines: seq<string>, spans: seq<Span>, window: int, before: seq<Span>, start: nat,
                end: int) returns (out: seq<Span>)
    requires start <= end < |lines| && Clear(spans, start, end)
    requires start > 0 ==> Held(spans, start - 1)
    requires end + 1 < |lines| ==> Held(spans, end + 1)
    requires Windowed(before, window)
    requires forall r :: Held(before, r) ==> 0 <= r < start && !Held(spans, r)
    requires forall r :: 0 <= r < start ==> (Held(before, r) <==> Kept(lines, spans, r))
    ensures Windowed(out, window)
    ensures forall r :: Held(out, r) ==> 0 <= r <= end && !Held(spans, r)
    ensures forall r :: 0 <= r <= end ==> (Held(out, r) <==> Kept(lines, spans, r))
  {
    var s, e := Trim(lines, start, end);
    forall r | start <= r <= end ensures Kept(lines, spans, r) <==> s <= r <= e {
      RunKeeps(lines, spans, start, end, s, e, r);
    }
    if s <= e {
      var more := WindowModule(s, e, window);
      HeldTogether(before, more);
      WindowedTogether(before, more, window, start);
      out := before + more;
    } else {
      out := before;
    }
  }

  /** A file without a grammar: the whole of it, trimmed and windowed. */
  method WholeFileModule(lines: seq<string>, window: int) returns (out: seq<Span>)
    ensures Windowed(out, window)
    ensures forall r :: Held(out, r) <==> Kept(lines, [], r)
  {
    var s, e := Trim(lines, 0, |lines| - 1);
    assert Clear([], 0, |lines| - 1);
    if |lines| > 0 {
      forall r | 0 <= r < |lines| ensures Kept(lines, [], r) <==> s <= r <= e {
        RunKeeps(lines, [], 0, |lines| - 1, s, e, r);
      }
    }
    if s > e {
      return [];
    }
    out := WindowModule(s, e, window);
  }
}

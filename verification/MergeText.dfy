/** The text that mergeSource writes reads back as the statements it stands for. */
module MergeText {
  import opened Wrappers
  import opened MergeSource

  // ---------- Reading ----------

  /** The statements read so far, and a run that is not closed yet. */
  datatype Reading<E, P> = Bad | Reading(done: seq<Statement<E, P>>, open: Option<(Prefix, seq<E>)>)

  /** What a prefix makes of the expression behind it; a bare one follows `buffer = ` in the declarations. */
  function Prefixed<E, P>(prefix: Prefix, run: seq<E>): Option<Statement<E, P>> {
    match prefix
    case Bare => Some(Init(run))
    case AddToBuffer => Some(AddTo(run))
    case ReturnIt => Some(Return(run))
    case ReturnBufferPlus => Some(ReturnWith(run))
    case Plus => None
  }

  function ReadMark<E, P>(r: Reading<E, P>, mark: Mark<E, P>): Reading<E, P> {
    if r.Bad? then Bad
    else if mark.line.Plain? then
      (if r.open.None? then Reading(r.done + [Do(mark.line.code)], None) else Bad)
    else if (mark.prefix == Plus) != r.open.Some? then Bad
    else
      var prefix := if r.open.Some? then r.open.value.0 else mark.prefix;
      var run := (if r.open.Some? then r.open.value.1 else []) + [mark.line.chunk];
      if !mark.semicolon then Reading(r.done, Some((prefix, run)))
      else
        var x := Prefixed<E, P>(prefix, run);
        if x.None? then Bad else Reading(r.done + [x.value], None)
  }

  function ReadMarks<E, P>(start: seq<Statement<E, P>>, marks: seq<Mark<E, P>>): Reading<E, P> {
    if marks == [] then Reading(start, None)
    else ReadMark(ReadMarks(start, marks[..|marks| - 1]), marks[|marks| - 1])
  }

  /** `buffer = ""` in the declarations, the marks, and a return that prints no run. */
  function Read<E, P>(out: Output<E, P>): Option<seq<Statement<E, P>>> {
    var r := ReadMarks(if out.header.EmptyBuffer? then [InitEmpty] else [], out.marks);
    if r.Bad? || r.open.Some? then None
    else Some(r.done + match out.footer
                       case Nothing => []
                       case ReturnEmptyText => [ReturnEmpty]
                       case ReturnTheBuffer => [ReturnBuffer])
  }

  // ---------- Reading what is written ----------

  predicate HasRun<E, P>(x: Statement<E, P>) { x.Init? || x.AddTo? || x.Return? || x.ReturnWith? }

  function PrefixOf<E, P>(x: Statement<E, P>): Prefix
    requires HasRun(x)
  {
    if x.Init? then Bare else if x.AddTo? then AddToBuffer else if x.Return? then ReturnIt else ReturnBufferPlus
  }

  /** No run is empty, only the first statement declares the buffer, and only the last returns without a run. */
  predicate WellFormed<E, P>(xs: seq<Statement<E, P>>) {
    && xs != []
    && (forall i :: 0 <= i < |xs| && HasRun(xs[i]) ==> xs[i].run != [])
    && (forall i :: 0 < i < |xs| ==> !xs[i].InitEmpty?)
    && (forall i :: 0 <= i < |xs| - 1 ==> !xs[i].ReturnEmpty? && !xs[i].ReturnBuffer?)
  }

  lemma ReadSnoc<E, P>(start: seq<Statement<E, P>>, marks: seq<Mark<E, P>>, mark: Mark<E, P>)
    ensures ReadMarks(start, marks + [mark]) == ReadMark(ReadMarks(start, marks), mark)
  {
    hide ReadMark;
    assert (marks + [mark])[..|marks|] == marks;
  }

  /** A run that is still open. */
  lemma {:induction false} ReadOpen<E, P>(start: seq<Statement<E, P>>, before: seq<Mark<E, P>>,
                                          done: seq<Statement<E, P>>, prefix: Prefix, run: seq<E>)
    requires ReadMarks(start, before) == Reading(done, None) && run != [] && prefix != Plus
    ensures ReadMarks(start, before + Written(prefix, run, false)) == Reading(done, Some((prefix, run)))
    decreases |run|
  {
    hide ReadMarks;
    var n := |run| - 1;
    var mark: Mark<E, P> := Mark(if n == 0 then prefix else Plus, Append(run[n]), false);
    var written: seq<Mark<E, P>> := Written(prefix, run[..n], false);
    assert before + Written(prefix, run, false) == before + written + [mark];
    ReadSnoc(start, before + written, mark);
    assert run == run[..n] + [run[n]];
    if n == 0 {
      assert written == [] && before + written == before;
      assert run == [] + [run[0]];
    } else {
      ReadOpen(start, before, done, prefix, run[..n]);
    }
  }

  lemma ReadClosed<E, P>(start: seq<Statement<E, P>>, before: seq<Mark<E, P>>, done: seq<Statement<E, P>>,
                         x: Statement<E, P>)
    requires ReadMarks(start, before) == Reading(done, None) && HasRun(x) && x.run != []
    ensures ReadMarks(start, before + Written(PrefixOf(x), x.run, true)) == Reading(done + [x], None)
  {
    hide ReadMarks;
    var run, prefix := x.run, PrefixOf(x);
    var n := |run| - 1;
    var mark: Mark<E, P> := Mark(if n == 0 then prefix else Plus, Append(run[n]), true);
    var written: seq<Mark<E, P>> := Written(prefix, run[..n], false);
    assert before + Written(prefix, run, true) == before + written + [mark];
    ReadSnoc(start, before + written, mark);
    assert run == run[..n] + [run[n]];
    if n == 0 {
      assert written == [] && before + written == before;
      assert run == [] + [run[0]];
    } else {
      ReadOpen(start, before, done, prefix, run[..n]);
    }
  }

  /** What a statement is read as among the marks; the declaration and the bare returns stand outside them. */
  function Marked<E, P>(x: Statement<E, P>): seq<Statement<E, P>> { if HasRun(x) || x.Do? then [x] else [] }

  lemma ReadLaid<E, P>(start: seq<Statement<E, P>>, before: seq<Mark<E, P>>, done: seq<Statement<E, P>>,
                       x: Statement<E, P>)
    requires ReadMarks(start, before) == Reading(done, None) && (HasRun(x) ==> x.run != [])
    ensures ReadMarks(start, before + Lay(x)) == Reading(done + Marked(x), None)
  {
    hide ReadMarks, Written;
    if HasRun(x) {
      ReadClosed(start, before, done, x);
    } else if x.Do? {
      ReadSnoc(start, before, Mark(Bare, Plain(x.code), false));
    } else {
      assert before + [] == before && done + [] == done;
    }
  }

  function AllMarked<E, P>(xs: seq<Statement<E, P>>): seq<Statement<E, P>> {
    if xs == [] then [] else AllMarked(xs[..|xs| - 1]) + Marked(xs[|xs| - 1])
  }

  lemma {:induction false} ReadAll<E, P>(start: seq<Statement<E, P>>, xs: seq<Statement<E, P>>)
    requires forall i :: 0 <= i < |xs| && HasRun(xs[i]) ==> xs[i].run != []
    ensures ReadMarks(start, LayAll(xs)) == Reading(start + AllMarked(xs), None)
  {
    hide Lay, Marked;
    if xs == [] {
      assert start + [] == start;
    } else {
      var n := |xs| - 1;
      ReadAll(start, xs[..n]);
      ReadLaid(start, LayAll(xs[..n]), start + AllMarked(xs[..n]), xs[n]);
      assert start + AllMarked(xs[..n]) + Marked(xs[n]) == start + (AllMarked(xs[..n]) + Marked(xs[n]));
    }
  }

  /** Only the ends can stand outside the marks. */
  lemma {:induction false} MarkedParts<E, P>(xs: seq<Statement<E, P>>)
    requires xs != [] && (forall i :: 0 < i < |xs| ==> !xs[i].InitEmpty?)
    requires forall i :: 0 <= i < |xs| ==> !xs[i].ReturnEmpty? && !xs[i].ReturnBuffer?
    ensures xs == (if xs[0].InitEmpty? then [InitEmpty] else []) + AllMarked(xs)
    decreases |xs|
  {
    var n := |xs| - 1;
    assert xs == xs[..n] + [xs[n]];
    if n == 0 {
      assert xs[..0] == [];
    } else {
      MarkedParts(xs[..n]);
    }
  }

  function StartOf<E, P>(x: Statement<E, P>): seq<Statement<E, P>> { if x.InitEmpty? then [InitEmpty] else [] }

  function EndOf<E, P>(x: Statement<E, P>): seq<Statement<E, P>> {
    if x.ReturnEmpty? || x.ReturnBuffer? then [x] else []
  }

  lemma TextIsRead<E, P>(xs: seq<Statement<E, P>>)
    requires WellFormed(xs)
    ensures Read(Text(xs)) == Some(StartOf(xs[0]) + AllMarked(xs) + EndOf(xs[|xs| - 1]))
  {
    hide LayAll, ReadMarks, AllMarked;
    ReadAll(StartOf(xs[0]), xs);
  }

  lemma OneMarked<E, P>(x: Statement<E, P>)
    ensures StartOf(x) + ([] + Marked(x)) + EndOf(x) == [x]
  {
  }

  /** The text of well-formed statements reads back as these statements. */
  lemma TextReads<E, P>(xs: seq<Statement<E, P>>)
    requires WellFormed(xs)
    ensures Read(Text(xs)) == Some(xs)
  {
    hide Read, Text, AllMarked;
    var n := |xs| - 1;
    TextIsRead(xs);
    LastMarked(xs);
    if n == 0 {
      NoneMarked<E, P>();
      assert xs[..0] == [];
      OneMarked(xs[0]);
      assert xs == [xs[0]];
    } else {
      MarkedParts(xs[..n]);
      LastShown(xs);
      assert StartOf(xs[0]) + (AllMarked(xs[..n]) + Marked(xs[n])) + EndOf(xs[n]) ==
             (StartOf(xs[0]) + AllMarked(xs[..n])) + (Marked(xs[n]) + EndOf(xs[n]));
      assert xs == xs[..n] + [xs[n]];
    }
  }

  lemma LastShown<E, P>(xs: seq<Statement<E, P>>)
    requires WellFormed(xs) && |xs| >= 2
    ensures Marked(xs[|xs| - 1]) + EndOf(xs[|xs| - 1]) == [xs[|xs| - 1]]
  {
  }

  lemma LastMarked<E, P>(xs: seq<Statement<E, P>>)
    requires xs != []
    ensures AllMarked(xs) == AllMarked(xs[..|xs| - 1]) + Marked(xs[|xs| - 1])
  {
  }

  lemma NoneMarked<E, P>()
    ensures AllMarked<E, P>([]) == []
  {
  }

  // ---------- Merged functions are well formed ----------

  lemma {:induction false} StartedWellFormed<E, P>(lines: seq<Line<E, P>>)
    ensures Started(lines) == [] || (WellFormed(Started(lines)) && Started(lines)[|Started(lines)| - 1].Do?)
    decreases |lines|
  {
    hide Started, Pending;
    if lines == [] {
      Empty<E, P>();
    } else {
      var n := |lines| - 1;
      StartedWellFormed(lines[..n]);
      assert lines[..n + 1] == lines;
      LineAdded(lines, n);
      if lines[n].Plain? {
        ClosedWellFormed(Started(lines[..n]), Pending(lines[..n]), lines[n].code);
      }
    }
  }

  lemma ClosedWellFormed<E, P>(before: seq<Statement<E, P>>, run: seq<E>, code: P)
    requires before == [] || (WellFormed(before) && before[|before| - 1].Do?)
    ensures WellFormed(before + Closing(run, before == []) + [Do(code)])
  {
  }

  lemma MergedWellFormed<E, P>(lines: seq<Line<E, P>>)
    ensures WellFormed(Merged(lines))
  {
    hide Started, Pending;
    StartedWellFormed(lines);
  }

  lemma AsIsWellFormed<E, P>(lines: seq<Line<E, P>>)
    requires Simple(lines)
    ensures WellFormed(AsIs(lines))
  {
  }

  /** The text of a merged function, and of one that stays as it is, reads back as its statements. */
  lemma MergedTextReads<E, P>(lines: seq<Line<E, P>>)
    ensures Merged(lines) != [] && Read(Text(Merged(lines))) == Some(Merged(lines))
    ensures Simple(lines) ==> AsIs(lines) != [] && Read(Text(AsIs(lines))) == Some(AsIs(lines))
  {
    hide Text, Read, Merged, AsIs;
    MergedWellFormed(lines);
    TextReads(Merged(lines));
    if Simple(lines) {
      AsIsWellFormed(lines);
      TextReads(AsIs(lines));
    }
  }
}

/** The errors of the configuration reader, by one pass over the lines with a stack of what is open.
 */
module ConfigErrors {
  import opened Wrappers
  import opened Sequences
  import opened ConfigModel
  import opened ConfigProofs

  /** What is open: a section, a section run on read, or something that is passed over. */
  datatype Level = Kept(name: string) | RunOnRead(name: string) | Skipped(name: string)

  predicate Skipping(open: seq<Level>) {
    open != [] && open[|open| - 1].Skipped?
  }

  /** The sections that the end of the file leaves open: those outside of any that is run on read. */
  function Outside(open: seq<Level>): seq<Level> {
    if open == [] || open[0].RunOnRead? then [] else [open[0]] + Outside(open[1..])
  }

  function InnermostFirst(open: seq<Level>): seq<string> {
    if open == [] then [] else [open[|open| - 1].name] + InnermostFirst(open[..|open| - 1])
  }

  function AtEnd(open: seq<Level>): Option<Error> {
    if Skipping(open) then Some(BeforeEnd(open[|open| - 1].name))
    else if Outside(open) == [] then None
    else Some(NotClosed(InnermostFirst(Outside(open))))
  }

  /** The error of the lines when `open` is open, if they have one. */
  function Judge(lines: seq<Line>, open: seq<Level>): Option<Error>
    decreases |lines|
  {
    if lines == [] then AtEnd(open)
    else
      var rest := lines[1..];
      match lines[0]
      case Open(name, _) => Judge(rest, open + [if Skipping(open) then Skipped(name) else Kept(name)])
      case Conditional(name, _, taken) =>
        Judge(rest, open + [if Skipping(open) || !taken then Skipped(name) else RunOnRead(name)])
      case Close(name) =>
        if open == [] then Some(NoSectionOpen(name))
        else
          var last := open[|open| - 1];
          if Alike(name, last.name) then Judge(rest, open[..|open| - 1])
          else Some(if last.RunOnRead? then NoSectionOpen(name) else Expected(last.name, name))
      case _ => Judge(rest, open)
  }

  function Levels(open: seq<Frame>): seq<Level> {
    seq(|open|, i requires 0 <= i < |open| => Kept(open[i].name))
  }

  // ----- the skipper

  lemma {:induction false} SoakJudged(lines: seq<Line>, name: string, open: seq<Level>)
    ensures var r := Soak(lines, name);
            Judge(lines, open + [Skipped(name)]) == if r.Err? then Some(r.error) else Judge(r.value, open)
    decreases |lines|, 0
  {
    var all := open + [Skipped(name)];
    if lines != [] {
      match lines[0] {
        case Close(saw) =>
          SameNameIs(saw, name);
          assert all[..|all| - 1] == open;
        case Open(n, _) => SkippedJudged(lines[1..], n, name, open);
        case Conditional(n, _, _) => SkippedJudged(lines[1..], n, name, open);
        case _ => SoakJudged(lines[1..], name, open);
      }
    }
  }

  /** A section inside one that is passed over, and what follows it. */
  lemma {:induction false} SkippedJudged(lines: seq<Line>, inner: string, name: string, open: seq<Level>)
    ensures var first := Soak(lines, inner);
            var r := if first.Err? then first else Soak(first.value, name);
            Judge(lines, open + [Skipped(name)] + [Skipped(inner)]) == if r.Err? then Some(r.error) else Judge(r.value, open)
    decreases |lines|, 1
  {
    SoakJudged(lines, inner, open + [Skipped(name)]);
    if Soak(lines, inner).Ok? {
      SoakJudged(Soak(lines, inner).value, name, open);
    }
  }

  // ----- the builder

  lemma {:induction false} OutsideOf(open: seq<Level>, name: string, more: seq<Level>)
    ensures Outside(open + [RunOnRead(name)] + more) == Outside(open)
  {
    var all := open + [RunOnRead(name)] + more;
    if open != [] {
      assert all[1..] == open[1..] + [RunOnRead(name)] + more;
      OutsideOf(open[1..], name, more);
    }
  }

  lemma LevelsStep(z: Zip, ts: seq<Tree>, name: string, args: string)
    ensures Levels(z.AddAll(ts).open) == Levels(z.open)
    ensures Levels(z.OpenSection(name, args).open) == Levels(z.open) + [Kept(name)]
    ensures z.open != [] ==> Levels(z.open) == Levels(z.CloseSection().open) + [Kept(z.Innermost())]
  {
  }

  /** Where the builder stands: at the top, or in a section run on read. */
  predicate AtBase(open: seq<Level>) {
    open == [] || open[|open| - 1].RunOnRead?
  }

  lemma {:induction false} SubJudged(lines: seq<Line>, z: Zip, base: seq<Level>)
    requires lines != [] && AtBase(base)
    requires base == [] || !EndsSection(lines, base[|base| - 1].name, z)
    ensures var r := Sub(lines, z);
            Judge(lines, base + Levels(z.open)) == if r.Err? then Some(r.error) else Judge(r.value.rest, base + Levels(r.value.z.open))
    decreases |lines|, 0
  {
    var all := base + Levels(z.open);
    assert lines == [lines[0]] + lines[1..];
    match lines[0] {
      case Blank =>
      case Plain(text) => LevelsStep(z, [Leaf(text)], "", "");
      case Open(name, args) =>
        LevelsStep(z, [], name, args);
        assert base + (Levels(z.open) + [Kept(name)]) == all + [Kept(name)];
      case Close(name) => CloseJudged(name, lines[1..], z, base);
      case Conditional(_, _, _) => ConditionalJudged(lines[0], lines[1..], z, base);
    }
  }

  lemma {:induction false} ConditionalJudged(line: Line, rest: seq<Line>, z: Zip, base: seq<Level>)
    requires line.Conditional? && AtBase(base)
    ensures var r := Sub([line] + rest, z);
            Judge([line] + rest, base + Levels(z.open)) == if r.Err? then Some(r.error) else Judge(r.value.rest, base + Levels(r.value.z.open))
    decreases |rest|, 2
  {
    var all, name := base + Levels(z.open), line.name;
    assert ([line] + rest)[1..] == rest;
    if line.taken {
      assert Levels([]) == [] && all + [RunOnRead(name)] + [] == all + [RunOnRead(name)];
      ContJudged(rest, name, EMPTY, all);
      if Cont(rest, name, EMPTY).Ok? {
        LevelsStep(z, Cont(rest, name, EMPTY).value.forest, "", "");
      }
    } else {
      SoakJudged(rest, name, all);
    }
  }

  lemma CloseJudged(name: string, rest: seq<Line>, z: Zip, base: seq<Level>)
    requires AtBase(base) && (base == [] || !EndsSection([Close(name)] + rest, base[|base| - 1].name, z))
    ensures var lines := [Close(name)] + rest;
            var r := Sub(lines, z);
            Judge(lines, base + Levels(z.open)) == if r.Err? then Some(r.error) else Judge(r.value.rest, base + Levels(r.value.z.open))
  {
    var all := base + Levels(z.open);
    CloseIs(name, rest, z);
    if z.open == [] {
      assert all == base;
      if base != [] {
        SameNameIs(name, base[|base| - 1].name);
      }
    } else {
      LevelsStep(z, [], "", "");
      assert all[..|all| - 1] == base + Levels(z.CloseSection().open);
    }
  }

  lemma {:induction false} ContJudged(lines: seq<Line>, name: string, z: Zip, open: seq<Level>)
    requires !Skipping(open)
    ensures var r := Cont(lines, name, z);
            Judge(lines, open + [RunOnRead(name)] + Levels(z.open)) == if r.Err? then Some(r.error) else Judge(r.value.rest, open)
    decreases |lines|, 1
  {
    var base := open + [RunOnRead(name)];
    var all := base + Levels(z.open);
    if lines == [] {
      OutsideOf(open, name, Levels(z.open));
    } else if EndsSection(lines, name, z) {
      SameNameIs(lines[0].name, name);
      assert all == base && base[..|base| - 1] == open;
    } else {
      SubJudged(lines, z, base);
      if Sub(lines, z).Ok? {
        ContJudged(Sub(lines, z).value.rest, name, Sub(lines, z).value.z, open);
      }
    }
  }

  lemma {:induction false} LeftOutside(open: seq<Frame>)
    ensures Outside(Levels(open)) == Levels(open)
  {
    if open != [] {
      assert Levels(open)[1..] == Levels(open[1..]);
      LeftOutside(open[1..]);
      assert Levels(open) == [Levels(open)[0]] + Levels(open[1..]);
    }
  }

  lemma {:induction false} LeftUnclosed(open: seq<Frame>)
    ensures InnermostFirst(Levels(open)) == Unclosed(open)
  {
    if open != [] {
      var n := |open| - 1;
      assert Levels(open)[..n] == Levels(open[..n]);
      LeftUnclosed(open[..n]);
    }
  }

  lemma {:induction false} BuildJudged(lines: seq<Line>, z: Zip)
    ensures var r := Build(lines, z); Judge(lines, Levels(z.open)) == if r.Err? then Some(r.error) else None
    decreases |lines|
  {
    assert [] + Levels(z.open) == Levels(z.open);
    if lines == [] {
      LeftOutside(z.open);
      LeftUnclosed(z.open);
    } else {
      SubJudged(lines, z, []);
      if Sub(lines, z).Ok? {
        var s := Sub(lines, z).value;
        assert [] + Levels(s.z.open) == Levels(s.z.open);
        BuildJudged(s.rest, s.z);
      }
    }
  }

  /** Whether a file is accepted, and the error if it is not, is what one pass with a stack of open sections says. */
  lemma ErrorsExactly(lines: seq<Line>)
    ensures Build(lines, EMPTY).Ok? <==> Judge(lines, []) == None
    ensures Build(lines, EMPTY).Err? ==> Judge(lines, []) == Some(Build(lines, EMPTY).error)
  {
    BuildJudged(lines, EMPTY);
    assert Levels([]) == [];
  }
}

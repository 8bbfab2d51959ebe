/** The builder, the skipper and the recursive-descent reading agree, and printing a built
    forest gives the lines back.
 */
module ConfigProofs {
  import opened Sequences
  import opened ConfigModel

  // ----- names whatever their case

  /** The same character, or the same letter `A` to `Z` in either case. */
  predicate SameLetter(c: char, d: char) {
    || c == d
    || ('A' <= c <= 'Z' && (d as int) == (c as int) + 32)
    || ('A' <= d <= 'Z' && (c as int) == (d as int) + 32)
  }

  predicate Alike(a: string, b: string) {
    |a| == |b| && forall i :: 0 <= i < |a| ==> SameLetter(a[i], b[i])
  }

  /** Two names are the same if and only if they differ in the case of letters at most. */
  lemma SameNameIs(a: string, b: string)
    ensures SameName(a, b) <==> Alike(a, b)
  {
    forall i | 0 <= i < |a| && |a| == |b| ensures Lower(a)[i] == Lower(b)[i] <==> SameLetter(a[i], b[i]) {
      LettersMeet(a[i], b[i]);
    }
    assert |Lower(a)| == |a| && |Lower(b)| == |b|;
  }

  lemma LettersMeet(c: char, d: char)
    ensures LowerChar(c) == LowerChar(d) <==> SameLetter(c, d)
  {
  }

  /** What `Lower` makes of a name is alike, and has no letter in upper case. */
  lemma LowerIs(a: string)
    ensures Alike(a, Lower(a)) && forall i :: 0 <= i < |a| ==> !('A' <= Lower(a)[i] <= 'Z')
  {
  }

  /** A closing line is taken if and only if it names the innermost open section, in whatever case. */
  lemma CloseIs(saw: string, rest: seq<Line>, z: Zip)
    ensures Sub([Close(saw)] + rest, z) ==
            if z.open == [] then Err(NoSectionOpen(saw))
            else if Alike(saw, z.open[|z.open| - 1].name) then Ok(Step(z.CloseSection(), rest))
            else Err(Expected(z.open[|z.open| - 1].name, saw))
  {
    assert ([Close(saw)] + rest)[1..] == rest;
    if z.open != [] {
      SameNameIs(saw, z.Innermost());
    }
  }

  /** So is one for the skipper. */
  lemma SkippedCloseIs(saw: string, rest: seq<Line>, name: string)
    ensures Soak([Close(saw)] + rest, name) == if Alike(saw, name) then Ok(rest) else Err(Expected(name, saw))
  {
    assert ([Close(saw)] + rest)[1..] == rest;
    SameNameIs(saw, name);
  }

  /** A file of one section is built if and only if the closing name is alike. */
  lemma OneSectionIs(name: string, args: string, saw: string)
    ensures Build([Open(name, args), Close(saw)], EMPTY) ==
            if Alike(saw, name) then Ok([Section(name, args, [])]) else Err(Expected(name, saw))
  {
    var lines, z := [Open(name, args), Close(saw)], EMPTY.OpenSection(name, args);
    assert lines[1..] == [Close(saw)] && [Close(saw)] + [] == [Close(saw)];
    assert Build(lines, EMPTY) == Build([Close(saw)], z);
    CloseIs(saw, [], z);
    assert z.open[..0] == [] && z.CloseSection() == Zip([Section(name, args, [])], []);
  }

  /** The message about sections left open names them from the innermost out. */
  lemma {:induction false} UnclosedAre(open: seq<Frame>, i: nat)
    requires i < |open|
    ensures |Unclosed(open)| == |open| && Unclosed(open)[i] == open[|open| - 1 - i].name
    decreases |open|
  {
    var p := open[..|open| - 1];
    if p != [] {
      UnclosedAre(p, if i > 0 then i - 1 else 0);
    }
  }

  // ----- the place in the tree

  lemma AddTwice(z: Zip, a: seq<Tree>, b: seq<Tree>)
    ensures z.AddAll(a).AddAll(b) == z.AddAll(a + b)
  {
    if z.open == [] {
      Assoc(z.top, a, b);
    } else {
      var n := |z.open| - 1;
      Assoc(z.open[n].kids, a, b);
      assert z.AddAll(a).AddAll(b).open == z.AddAll(a + b).open;
    }
  }

  lemma AddNone(z: Zip)
    ensures z.AddAll([]) == z
  {
    if z.open == [] {
      assert z.top + [] == z.top;
    } else {
      var n := |z.open| - 1;
      assert z.open[n].kids + [] == z.open[n].kids;
      assert z.AddAll([]).open == z.open;
    }
  }

  /** Opening a section, filling it and closing it adds it. */
  lemma OpenFillClose(z: Zip, name: string, args: string, kids: seq<Tree>)
    ensures var z' := z.OpenSection(name, args).AddAll(kids);
            z'.open != [] && z'.Innermost() == name && z'.CloseSection() == z.AddAll([Section(name, args, kids)])
  {
    var z' := z.OpenSection(name, args).AddAll(kids);
    assert [] + kids == kids;
    assert z'.open[..|z.open|] == z.open;
  }

  lemma InnermostKept(z: Zip, ts: seq<Tree>)
    requires z.open != []
    ensures z.AddAll(ts).open != [] && z.AddAll(ts).Innermost() == z.Innermost()
  {
  }

  // ----- the skipper reads what the descent reads

  /** The skipper stops where the descent stops, and fails exactly where it fails. */
  lemma {:induction false} SoakIsDescend(lines: seq<Line>, name: string)
    ensures match Descend(lines, name)
            case Ok(p) => Soak(lines, name) == Ok(p.rest)
            case Err(e) => Soak(lines, name) == Err(e)
    decreases |lines|
  {
    if lines != [] {
      match lines[0]
      case Close(n) =>
      case Open(n, _) =>
        SoakIsDescend(lines[1..], n);
        if Soak(lines[1..], n).Ok? {
          SoakIsDescend(Soak(lines[1..], n).value, name);
        }
      case Conditional(n, _, _) =>
        SoakIsDescend(lines[1..], n);
        if Soak(lines[1..], n).Ok? {
          SoakIsDescend(Soak(lines[1..], n).value, name);
        }
      case _ =>
        SoakIsDescend(lines[1..], name);
    }
  }

  // ----- the builder reads what the descent reads

  /** A builder that is inside the section `name` gets past its end with its contents added. */
  lemma {:induction false} ContThrough(lines: seq<Line>, name: string, outer: string, z: Zip)
    requires Descend(lines, name).Ok? && z.open != [] && SameName(z.Innermost(), name)
    ensures var p := Descend(lines, name).value;
            Cont(lines, outer, z) == Cont(p.rest, outer, z.AddAll(p.forest).CloseSection())
    decreases |lines|, 2
  {
    var line, p := lines[0], Descend(lines, name).value;
    if line.Close? {
      AddNone(z);
    } else if line.Open? || line.Conditional? {
      var inner := Descend(lines[1..], line.name).value;
      var c := Contribution(line, inner.forest);
      ContSection(lines, outer, z);
      InnermostKept(z, c);
      ContThrough(inner.rest, name, outer, z.AddAll(c));
      AddTwice(z, c, Descend(inner.rest, name).value.forest);
    } else {
      var p' := Descend(lines[1..], name).value;
      InnermostKept(z, Single(line));
      AddNone(z);
      assert Cont(lines, outer, z) == Cont(lines[1..], outer, z.AddAll(Single(line)));
      ContThrough(lines[1..], name, outer, z.AddAll(Single(line)));
      AddTwice(z, Single(line), p'.forest);
    }
  }

  /** A section line that is closed contributes what the descent says, wherever it stands. */
  lemma {:induction false} ContSection(lines: seq<Line>, outer: string, z: Zip)
    requires lines != [] && (lines[0].Open? || lines[0].Conditional?) && Descend(lines[1..], lines[0].name).Ok?
    ensures var inner := Descend(lines[1..], lines[0].name).value;
            Cont(lines, outer, z) == Cont(inner.rest, outer, z.AddAll(Contribution(lines[0], inner.forest)))
    decreases |lines|, 1
  {
    var line, inner := lines[0], Descend(lines[1..], lines[0].name).value;
    if line.Open? {
      var z' := z.OpenSection(line.name, line.args);
      ContThrough(lines[1..], line.name, outer, z');
      OpenFillClose(z, line.name, line.args, inner.forest);
    } else {
      SubConditional(lines, z);
    }
  }

  /** A conditional section that is closed. */
  lemma {:induction false} SubConditional(lines: seq<Line>, z: Zip)
    requires lines != [] && lines[0].Conditional? && Descend(lines[1..], lines[0].name).Ok?
    ensures var inner := Descend(lines[1..], lines[0].name).value;
            Sub(lines, z) == Ok(Step(z.AddAll(Contribution(lines[0], inner.forest)), inner.rest))
    decreases |lines|, 0
  {
    var inner := Descend(lines[1..], lines[0].name).value;
    if lines[0].taken {
      ContToEnd(lines[1..], lines[0].name, EMPTY);
      assert [] + inner.forest == inner.forest;
    } else {
      SoakIsDescend(lines[1..], lines[0].name);
      AddNone(z);
    }
  }

  /** A builder at the top level of its own section stops at its end, with its contents. */
  lemma {:induction false} ContToEnd(lines: seq<Line>, name: string, z: Zip)
    requires Descend(lines, name).Ok? && z.open == []
    ensures var p := Descend(lines, name).value;
            Cont(lines, name, z) == Ok(Contents(z.top + p.forest, p.rest, true))
    decreases |lines|, 2
  {
    var line, p := lines[0], Descend(lines, name).value;
    if line.Close? {
      assert z.top + [] == z.top;
    } else if line.Open? || line.Conditional? {
      var inner := Descend(lines[1..], line.name).value;
      var c := Contribution(line, inner.forest);
      ContSection(lines, name, z);
      ContToEnd(inner.rest, name, z.AddAll(c));
      Assoc(z.top, c, Descend(inner.rest, name).value.forest);
    } else {
      var p' := Descend(lines[1..], name).value;
      AddNone(z);
      assert Cont(lines, name, z) == Cont(lines[1..], name, z.AddAll(Single(line)));
      ContToEnd(lines[1..], name, z.AddAll(Single(line)));
      Assoc(z.top, Single(line), p'.forest);
    }
  }

  // ----- the skipper stops where the builder stops

  /** Soaking one section after the other, innermost (last) first. */
  function SoakOut(lines: seq<Line>, names: seq<string>): Result<seq<Line>>
    decreases |names|
  {
    if names == [] then Ok(lines)
    else match Soak(lines, names[|names| - 1])
      case Err(e) => Err(e)
      case Ok(rest) => SoakOut(rest, names[..|names| - 1])
  }

  lemma SoakOutSnoc(lines: seq<Line>, names: seq<string>, name: string)
    ensures SoakOut(lines, names + [name]).Ok? ==> Soak(lines, name).Ok?
    ensures Soak(lines, name).Ok? ==> SoakOut(lines, names + [name]) == SoakOut(Soak(lines, name).value, names)
  {
    assert (names + [name])[..|names|] == names;
  }

  /** The same first section: what soaks its first line away leaves the rest to soak. */
  lemma SoakOutSkip(lines: seq<Line>, rest: seq<Line>, names: seq<string>)
    requires names != [] && Soak(lines, names[|names| - 1]) == Soak(rest, names[|names| - 1])
    ensures SoakOut(lines, names) == SoakOut(rest, names)
  {
  }

  lemma NamesKept(name: string, z: Zip, ts: seq<Tree>)
    ensures [name] + Names(z.AddAll(ts).open) == [name] + Names(z.open)
  {
    assert Names(z.AddAll(ts).open) == Names(z.open);
  }

  lemma NamesOpened(name: string, z: Zip, n: string, a: string)
    ensures [name] + Names(z.OpenSection(n, a).open) == [name] + Names(z.open) + [n]
  {
  }

  lemma NamesClosed(name: string, z: Zip)
    requires z.open != []
    ensures [name] + Names(z.open) == [name] + Names(z.CloseSection().open) + [z.Innermost()]
  {
    var n := |z.open| - 1;
    NamesKept(name, Zip(z.top, z.open[..n]), [Section(z.open[n].name, z.open[n].args, z.open[n].kids)]);
    assert Names(z.open) == Names(z.open[..n]) + [z.open[n].name];
  }

  /** Where the builder sees the end of its section, the skipper, let loose on the open sections
      and then on that one, arrives as well. */
  lemma {:induction false} ContSoaks(lines: seq<Line>, name: string, z: Zip)
    requires Cont(lines, name, z).Ok? && Cont(lines, name, z).value.closed
    ensures SoakOut(lines, [name] + Names(z.open)) == Ok(Cont(lines, name, z).value.rest)
    decreases |lines|
  {
    var names := [name] + Names(z.open);
    if EndsSection(lines, name, z) {
      assert names == [] + [name];
      SoakOutSnoc(lines, [], name);
    } else {
      var s := Sub(lines, z).value;
      ContSoaks(s.rest, name, s.z);
      match lines[0]
      case Close(n) =>
        NamesClosed(name, z);
        SoakOutSnoc(lines, [name] + Names(s.z.open), z.Innermost());
      case Open(n, a) =>
        NamesOpened(name, z, n, a);
        SoakOutSnoc(lines[1..], names, n);
        SoakOutSkip(lines, Soak(lines[1..], n).value, names);
      case Conditional(n, _, taken) =>
        if taken {
          var c := Cont(lines[1..], n, EMPTY).value;
          NamesKept(name, z, c.forest);
          ContSoaks(lines[1..], n, EMPTY);
          assert [n] + Names(EMPTY.open) == [] + [n];
          SoakOutSnoc(lines[1..], [], n);
        }
        SoakOutSkip(lines, s.rest, names);
      case Plain(text) =>
        NamesKept(name, z, [Leaf(text)]);
        SoakOutSkip(lines, s.rest, names);
      case Blank =>
        SoakOutSkip(lines, s.rest, names);
    }
  }

  /** The skipper succeeds exactly when the builder sees the end of the same section, and then
      consumes exactly the lines the builder consumes. */
  lemma SkipperAgreesWithBuilder(lines: seq<Line>, name: string)
    ensures var c := Cont(lines, name, EMPTY);
            && (Soak(lines, name).Ok? <==> c.Ok? && c.value.closed)
            && (Soak(lines, name).Ok? ==> Soak(lines, name).value == c.value.rest)
  {
    SoakIsDescend(lines, name);
    if Soak(lines, name).Ok? {
      ContToEnd(lines, name, EMPTY);
    }
    if Cont(lines, name, EMPTY).Ok? && Cont(lines, name, EMPTY).value.closed {
      ClosedIsSoaked(lines, name);
    }
  }

  lemma ClosedIsSoaked(lines: seq<Line>, name: string)
    requires Cont(lines, name, EMPTY).Ok? && Cont(lines, name, EMPTY).value.closed
    ensures Soak(lines, name).Ok?
  {
    ContSoaks(lines, name, EMPTY);
    assert [name] + Names(EMPTY.open) == [] + [name];
    SoakOutSnoc(lines, [], name);
  }

  // ----- whole files

  lemma {:induction false} BuildThrough(lines: seq<Line>, name: string, z: Zip)
    requires Descend(lines, name).Ok? && z.open != [] && SameName(z.Innermost(), name)
    ensures var p := Descend(lines, name).value;
            Build(lines, z) == Build(p.rest, z.AddAll(p.forest).CloseSection())
    decreases |lines|, 2
  {
    var line := lines[0];
    if line.Close? {
      AddNone(z);
    } else if line.Open? || line.Conditional? {
      var inner := Descend(lines[1..], line.name).value;
      var c := Contribution(line, inner.forest);
      BuildSection(lines, z);
      InnermostKept(z, c);
      BuildThrough(inner.rest, name, z.AddAll(c));
      AddTwice(z, c, Descend(inner.rest, name).value.forest);
    } else {
      InnermostKept(z, Single(line));
      AddNone(z);
      assert Build(lines, z) == Build(lines[1..], z.AddAll(Single(line)));
      BuildThrough(lines[1..], name, z.AddAll(Single(line)));
      AddTwice(z, Single(line), Descend(lines[1..], name).value.forest);
    }
  }

  lemma {:induction false} BuildSection(lines: seq<Line>, z: Zip)
    requires lines != [] && (lines[0].Open? || lines[0].Conditional?) && Descend(lines[1..], lines[0].name).Ok?
    ensures var inner := Descend(lines[1..], lines[0].name).value;
            Build(lines, z) == Build(inner.rest, z.AddAll(Contribution(lines[0], inner.forest)))
    decreases |lines|, 1
  {
    var line, inner := lines[0], Descend(lines[1..], lines[0].name).value;
    if line.Open? {
      BuildThrough(lines[1..], line.name, z.OpenSection(line.name, line.args));
      OpenFillClose(z, line.name, line.args, inner.forest);
    } else {
      SubConditional(lines, z);
    }
  }

  /** What the descent reads, the builder appends to what is there already. */
  lemma {:induction false} BuildAppends(lines: seq<Line>, z: Zip)
    requires DescendFile(lines).Ok? && z.open == []
    ensures Build(lines, z) == Ok(z.top + DescendFile(lines).value)
    decreases |lines|
  {
    if lines == [] {
      assert z.top + [] == z.top;
    } else {
      var line := lines[0];
      if line.Open? || line.Conditional? {
        var inner := Descend(lines[1..], line.name).value;
        var c := Contribution(line, inner.forest);
        BuildSection(lines, z);
        BuildAppends(inner.rest, z.AddAll(c));
        Assoc(z.top, c, DescendFile(inner.rest).value);
      } else {
        AddNone(z);
        assert Build(lines, z) == Build(lines[1..], z.AddAll(Single(line)));
        BuildAppends(lines[1..], z.AddAll(Single(line)));
        Assoc(z.top, Single(line), DescendFile(lines[1..]).value);
      }
    }
  }

  /** No conditional section runs into the end of the file. */
  predicate ConditionalsClosed(lines: seq<Line>)
    decreases |lines|
  {
    if lines == [] then true
    else if lines[0].Conditional? then
      Soak(lines[1..], lines[0].name).Ok? && ConditionalsClosed(Soak(lines[1..], lines[0].name).value)
    else ConditionalsClosed(lines[1..])
  }

  /** The sections `names` are closed one after the other, and the rest is a file of its own. */
  predicate ClosesOut(lines: seq<Line>, names: seq<string>) {
    SoakOut(lines, names).Ok? && DescendFile(SoakOut(lines, names).value).Ok?
  }

  lemma {:induction false} BuildCloses(lines: seq<Line>, z: Zip)
    requires Build(lines, z).Ok? && ConditionalsClosed(lines)
    ensures ClosesOut(lines, Names(z.open))
    decreases |lines|
  {
    var names := Names(z.open);
    if lines != [] {
      var line, s := lines[0], Sub(lines, z).value;
      if line.Conditional? {
        SoakIsDescend(lines[1..], line.name);
        SubConditional(lines, z);
      }
      BuildCloses(s.rest, s.z);
      ClosesOutStep(lines, z, s);
    }
  }

  lemma NamesOf(z: Zip, ts: seq<Tree>, n: string, a: string)
    ensures Names(z.AddAll(ts).open) == Names(z.open)
    ensures Names(z.OpenSection(n, a).open) == Names(z.open) + [n]
    ensures z.open != [] ==> Names(z.open) == Names(z.CloseSection().open) + [z.Innermost()]
  {
    if z.open != [] {
      var k := |z.open| - 1;
      assert Names(Zip(z.top, z.open[..k]).AddAll([Section(z.open[k].name, z.open[k].args, z.open[k].kids)]).open) == Names(z.open[..k]);
      assert Names(z.open) == Names(z.open[..k]) + [z.open[k].name];
    }
  }

  lemma ClosesOutStep(lines: seq<Line>, z: Zip, s: Step)
    requires lines != [] && Sub(lines, z) == Ok(s) && ClosesOut(s.rest, Names(s.z.open))
    requires lines[0].Conditional? ==> Soak(lines[1..], lines[0].name) == Ok(s.rest) && Names(s.z.open) == Names(z.open)
    ensures ClosesOut(lines, Names(z.open))
  {
    var line, names := lines[0], Names(z.open);
    match line
    case Close(n) =>
      NamesOf(z, [], "", "");
      SoakOutSnoc(lines, Names(s.z.open), z.Innermost());
    case Open(n, a) =>
      NamesOf(z, [], n, a);
      SoakOutSnoc(lines[1..], names, n);
      ClosesOutSection(lines, names);
    case Conditional(n, _, _) =>
      ClosesOutSection(lines, names);
    case _ =>
      NamesOf(z, Single(line), "", "");
      if names != [] {
        SoakOutSkip(lines, s.rest, names);
      }
  }

  /** A section that is closed, in front of lines that close out. */
  lemma ClosesOutSection(lines: seq<Line>, names: seq<string>)
    requires lines != [] && (lines[0].Open? || lines[0].Conditional?)
    requires Soak(lines[1..], lines[0].name).Ok? && ClosesOut(Soak(lines[1..], lines[0].name).value, names)
    ensures ClosesOut(lines, names)
  {
    SoakIsDescend(lines[1..], lines[0].name);
    if names != [] {
      SoakOutSkip(lines, Soak(lines[1..], lines[0].name).value, names);
    }
  }

  lemma {:induction false} DescentCloses(lines: seq<Line>, name: string)
    requires Descend(lines, name).Ok? && ConditionalsClosed(Descend(lines, name).value.rest)
    ensures ConditionalsClosed(lines)
    decreases |lines|
  {
    var line := lines[0];
    if line.Open? || line.Conditional? {
      var inner := Descend(lines[1..], line.name).value;
      DescentCloses(inner.rest, name);
      DescentCloses(lines[1..], line.name);
      SoakIsDescend(lines[1..], line.name);
    } else if !line.Close? {
      DescentCloses(lines[1..], name);
    }
  }

  lemma {:induction false} FileCloses(lines: seq<Line>)
    requires DescendFile(lines).Ok?
    ensures ConditionalsClosed(lines)
    decreases |lines|
  {
    if lines != [] {
      var line := lines[0];
      if line.Open? || line.Conditional? {
        FileCloses(Descend(lines[1..], line.name).value.rest);
        DescentCloses(lines[1..], line.name);
        SoakIsDescend(lines[1..], line.name);
      } else {
        FileCloses(lines[1..]);
      }
    }
  }

  /** The builder and the descent: they accept the same files, and build the same forest, up to
      the files in which a conditional section runs into the end of the file. */
  lemma BuilderIsDescent(lines: seq<Line>, f: seq<Tree>)
    ensures DescendFile(lines) == Ok(f) <==> Build(lines, EMPTY) == Ok(f) && ConditionalsClosed(lines)
  {
    if Build(lines, EMPTY).Ok? && ConditionalsClosed(lines) {
      BuildCloses(lines, EMPTY);
      assert Names(EMPTY.open) == [];
    }
    if DescendFile(lines).Ok? {
      FileCloses(lines);
      BuildAppends(lines, EMPTY);
      assert [] + DescendFile(lines).value == DescendFile(lines).value;
    }
  }

  /** A conditional section that is never closed is accepted without a word, and so is a section
      left open inside it: the end of the file is taken for both ends. */
  lemma UnclosedConditionalAccepted(name: string, args: string, section: string, text: string)
    ensures var lines := [Conditional(name, args, true), Open(section, args), Plain(text)];
            && Build(lines, EMPTY) == Ok([Section(section, args, [Leaf(text)])])
            && DescendFile(lines).Err? && !ConditionalsClosed(lines)
  {
    var lines := [Conditional(name, args, true), Open(section, args), Plain(text)];
    var l1, l2 := [Open(section, args), Plain(text)], [Plain(text)];
    assert lines[1..] == l1 && l1[1..] == l2 && l2[1..] == [];
    var z1 := EMPTY.OpenSection(section, args);
    var z2, f := z1.AddAll([Leaf(text)]), [Section(section, args, [Leaf(text)])];
    OpenFillClose(EMPTY, section, args, [Leaf(text)]);
    assert [] + f == f && EMPTY.AddAll(f) == Zip(f, []);
    assert z2.Collapse() == z2.CloseSection().Collapse() == f;
    assert Cont(l2, name, z1) == Cont([], name, z2) == Ok(Contents(f, [], false));
    assert Cont(l1, name, EMPTY) == Cont(l2, name, z1);
    assert Sub(lines, EMPTY) == Ok(Step(Zip(f, []), []));
    UnclosedIsNotDescended(l1, l2, name, section, args, text);
  }

  lemma UnclosedIsNotDescended(l1: seq<Line>, l2: seq<Line>, name: string, section: string, args: string, text: string)
    requires l1 == [Open(section, args), Plain(text)] && l2 == [Plain(text)]
    ensures Soak(l1, name).Err? && Descend(l1, name).Err?
  {
    assert l1[1..] == l2 && l2[1..] == [];
    assert Soak(l2, section) == Soak([], section);
    SoakIsDescend(l1, name);
  }

  // ----- printing

  lemma LowerTwice(s: string)
    ensures Lower(Lower(s)) == Lower(s)
  {
  }

  predicate NoConditionals(lines: seq<Line>) {
    lines == [] || (!lines[0].Conditional? && NoConditionals(lines[1..]))
  }

  lemma {:induction false} NothingToClose(lines: seq<Line>)
    requires NoConditionals(lines)
    ensures ConditionalsClosed(lines)
  {
    if lines != [] {
      NothingToClose(lines[1..]);
    }
  }

  lemma {:induction false} ShowAllConcat(a: seq<Tree>, b: seq<Tree>)
    ensures ShowAll(a + b) == ShowAll(a) + ShowAll(b)
  {
    if a == [] {
      assert a + b == b;
    } else {
      assert (a + b)[1..] == a[1..] + b;
      ShowAllConcat(a[1..], b);
      Assoc(Show(a[0]), ShowAll(a[1..]), ShowAll(b));
    }
  }

  lemma ShowOne(t: Tree)
    ensures ShowAll([t]) == Show(t)
  {
    assert [t][1..] == [];
  }

  /** The lines of a section, printed back. */
  lemma {:induction false} DescendShows(lines: seq<Line>, name: string)
    requires NoConditionals(lines) && Descend(lines, name).Ok?
    ensures var p := Descend(lines, name).value;
            NoConditionals(p.rest) && Normal(lines) == ShowAll(p.forest) + ([Close(Lower(name))] + Normal(p.rest))
    decreases |lines|
  {
    var line, p := lines[0], Descend(lines, name).value;
    if line.Open? {
      var inner := Descend(lines[1..], line.name).value;
      var outer := Descend(inner.rest, name).value;
      DescendShows(lines[1..], line.name);
      DescendShows(inner.rest, name);
      SectionShows(line.name, line.args, inner.forest, Normal(inner.rest), Normal(lines[1..]));
      var t := Section(line.name, line.args, inner.forest);
      ShowOne(t);
      ShowAllConcat([t], outer.forest);
      Assoc(Show(t), ShowAll(outer.forest), [Close(Lower(name))] + Normal(p.rest));
    } else if !line.Close? {
      var p' := Descend(lines[1..], name).value;
      DescendShows(lines[1..], name);
      ShowAllConcat(Single(line), p'.forest);
      ShowOne(Leaf(if line.Plain? then line.text else ""));
      Assoc(ShowAll(Single(line)), ShowAll(p'.forest), [Close(Lower(name))] + Normal(p.rest));
    }
  }

  lemma SectionShows(name: string, args: string, kids: seq<Tree>, after: seq<Line>, inside: seq<Line>)
    requires inside == ShowAll(kids) + ([Close(Lower(name))] + after)
    ensures [Open(name, args)] + inside == Show(Section(name, args, kids)) + after
  {
  }

  lemma {:induction false} FileShows(lines: seq<Line>)
    requires NoConditionals(lines) && DescendFile(lines).Ok?
    ensures Normal(lines) == ShowAll(DescendFile(lines).value)
    decreases |lines|
  {
    if lines != [] {
      var line := lines[0];
      if line.Open? {
        var inner := Descend(lines[1..], line.name).value;
        DescendShows(lines[1..], line.name);
        FileShows(inner.rest);
        SectionShows(line.name, line.args, inner.forest, Normal(inner.rest), Normal(lines[1..]));
        ShowOne(Section(line.name, line.args, inner.forest));
        ShowAllConcat([Section(line.name, line.args, inner.forest)], DescendFile(inner.rest).value);
      } else {
        FileShows(lines[1..]);
        ShowAllConcat(Single(line), DescendFile(lines[1..]).value);
        ShowOne(Leaf(if line.Plain? then line.text else ""));
      }
    }
  }

  /** Reading back what was printed. */
  lemma {:induction false} DescendShown(ts: seq<Tree>, name: string, rest: seq<Line>)
    ensures Descend(ShowAll(ts) + ([Close(Lower(name))] + rest), name) == Ok(Parsed(ts, rest))
    decreases ts
  {
    var close := [Close(Lower(name))] + rest;
    LowerTwice(name);
    if ts == [] {
      assert ShowAll(ts) + close == close && close[1..] == rest;
    } else {
      var t, lines := ts[0], ShowAll(ts) + close;
      var after := ShowAll(ts[1..]) + close;
      Assoc(Show(t), ShowAll(ts[1..]), close);
      assert lines == Show(t) + after;
      DescendShown(ts[1..], name, rest);
      if t.Leaf? {
        assert lines[1..] == after;
      } else {
        SectionShows(t.name, t.args, t.kids, after, ShowAll(t.kids) + ([Close(Lower(t.name))] + after));
        assert lines[1..] == ShowAll(t.kids) + ([Close(Lower(t.name))] + after);
        DescendShown(t.kids, t.name, after);
      }
      assert [t] + ts[1..] == ts;
    }
  }

  lemma {:induction false} FileShown(ts: seq<Tree>)
    ensures DescendFile(ShowAll(ts)) == Ok(ts)
    decreases |ts|
  {
    if ts != [] {
      var t, lines, after := ts[0], ShowAll(ts), ShowAll(ts[1..]);
      FileShown(ts[1..]);
      assert lines == Show(t) + after;
      if t.Leaf? {
        assert lines[1..] == after;
      } else {
        SectionShows(t.name, t.args, t.kids, after, ShowAll(t.kids) + ([Close(Lower(t.name))] + after));
        assert lines[1..] == ShowAll(t.kids) + ([Close(Lower(t.name))] + after);
        DescendShown(t.kids, t.name, after);
      }
      assert [t] + ts[1..] == ts;
    }
  }

  /** Blanks and the case of closing names make no difference. */
  lemma {:induction false} DescendNormal(lines: seq<Line>, name: string)
    ensures Descend(lines, name).Ok? <==> Descend(Normal(lines), name).Ok?
    ensures Descend(lines, name).Ok? ==>
              Descend(Normal(lines), name) == Ok(Parsed(Descend(lines, name).value.forest, Normal(Descend(lines, name).value.rest)))
    decreases |lines|
  {
    if lines != [] {
      NormalHead(lines);
      var line := lines[0];
      if line.Open? || line.Conditional? {
        DescendNormal(lines[1..], line.name);
        if Descend(lines[1..], line.name).Ok? {
          DescendNormal(Descend(lines[1..], line.name).value.rest, name);
        }
      } else if !line.Close? {
        DescendNormal(lines[1..], name);
        assert forall f: seq<Tree> :: [] + f == f;
      }
    }
  }

  lemma NormalHead(lines: seq<Line>)
    requires lines != []
    ensures lines[0].Blank? ==> Normal(lines) == Normal(lines[1..])
    ensures !lines[0].Blank? ==> Normal(lines) != [] && Normal(lines)[1..] == Normal(lines[1..])
    ensures lines[0].Close? ==> Normal(lines)[0] == Close(Lower(lines[0].name)) && Lower(Lower(lines[0].name)) == Lower(lines[0].name)
    ensures !lines[0].Blank? && !lines[0].Close? ==> Normal(lines)[0] == lines[0]
  {
    if lines[0].Close? {
      LowerTwice(lines[0].name);
    }
  }

  lemma {:induction false} FileNormal(lines: seq<Line>)
    ensures DescendFile(lines).Ok? <==> DescendFile(Normal(lines)).Ok?
    ensures DescendFile(lines).Ok? ==> DescendFile(Normal(lines)) == DescendFile(lines)
    decreases |lines|
  {
    if lines != [] {
      NormalHead(lines);
      var line := lines[0];
      if line.Open? || line.Conditional? {
        DescendNormal(lines[1..], line.name);
        if Descend(lines[1..], line.name).Ok? {
          FileNormal(Descend(lines[1..], line.name).value.rest);
        }
      } else if !line.Close? {
        FileNormal(lines[1..]);
        assert forall f: seq<Tree> :: [] + f == f;
      }
    }
  }

  /** Parse and print: without conditional sections, the builder produces the forest `f` exactly
      when the lines, up to blanks and the case of closing names, are the print of `f`. */
  lemma ParsePrintRoundTrip(lines: seq<Line>, f: seq<Tree>)
    requires NoConditionals(lines)
    ensures Build(lines, EMPTY) == Ok(f) <==> Normal(lines) == ShowAll(f)
  {
    NothingToClose(lines);
    BuilderIsDescent(lines, f);
    FileNormal(lines);
    if DescendFile(lines).Ok? {
      FileShows(lines);
    }
    if Normal(lines) == ShowAll(f) {
      FileShown(f);
    }
  }

  // ----- one file after another

  /** The same place in the tree, with `front` before everything at top level. */
  function Behind(front: seq<Tree>, z: Zip): Zip {
    Zip(front + z.top, z.open)
  }

  lemma BehindAdd(front: seq<Tree>, z: Zip, ts: seq<Tree>)
    ensures Behind(front, z).AddAll(ts) == Behind(front, z.AddAll(ts))
  {
    Assoc(front, z.top, ts);
  }

  lemma BehindClose(front: seq<Tree>, z: Zip)
    requires z.open != []
    ensures Behind(front, z).CloseSection() == Behind(front, z.CloseSection())
  {
    var n := |z.open| - 1;
    BehindAdd(front, Zip(z.top, z.open[..n]), [Section(z.open[n].name, z.open[n].args, z.open[n].kids)]);
  }

  /** A line does not look at what is finished at top level. */
  lemma SubBehind(lines: seq<Line>, front: seq<Tree>, z: Zip)
    requires lines != []
    ensures var s := Sub(lines, z);
            Sub(lines, Behind(front, z)) == if s.Ok? then Ok(s.value.(z := Behind(front, s.value.z))) else s
  {
    match lines[0]
    case Plain(text) => BehindAdd(front, z, [Leaf(text)]);
    case Close(_) =>
      if z.open != [] {
        BehindClose(front, z);
      }
    case Conditional(name, _, taken) =>
      var c := Cont(lines[1..], name, EMPTY);
      if taken && c.Ok? {
        BehindAdd(front, z, c.value.forest);
      }
    case _ =>
  }

  lemma {:induction false} BuildBehind(lines: seq<Line>, front: seq<Tree>, z: Zip)
    ensures var b := Build(lines, z);
            Build(lines, Behind(front, z)) == if b.Ok? then Ok(front + b.value) else b
    decreases |lines|
  {
    if lines != [] {
      SubBehind(lines, front, z);
      var s := Sub(lines, z);
      if s.Ok? {
        BuildBehind(s.value.rest, front, s.value.z);
      }
    }
  }

  /** A second file is appended to the first: whatever the first has given stays in front, and the second is
      accepted or refused as it would be by itself. */
  lemma FilesAppend(first: seq<Tree>, second: seq<Line>)
    ensures var b := Build(second, EMPTY);
            Build(second, Zip(first, [])) == if b.Ok? then Ok(first + b.value) else b
  {
    assert first + [] == first;
    BuildBehind(second, first, EMPTY);
  }
}

/** The configuration reader on tokenised lines, as functions: the builder and the skipper as
    they are written, and a recursive-descent reading of the same lines to compare them with.
 */
module ConfigModel {

  /** A line after its first word has been looked at. `Conditional` is a section that is run
      on read (`<IfModule>`, `<IfDefine>`); `taken` is what its condition comes to. */
  datatype Line =
    | Blank
    | Plain(text: string)
    | Open(name: string, args: string)
    | Close(name: string)
    | Conditional(name: string, args: string, taken: bool)

  datatype Error =
    | NoSectionOpen(saw: string)
    | Expected(open: string, saw: string)
    | BeforeEnd(open: string)
    | NotClosed(sections: seq<string>)

  datatype Result<T> = Ok(value: T) | Err(error: Error)

  function LowerChar(c: char): char {
    if 'A' <= c <= 'Z' then ((c as int) + 32) as char else c
  }

  function Lower(s: string): string {
    seq(|s|, i requires 0 <= i < |s| => LowerChar(s[i]))
  }

  /** `strcasecmp(a, b) == 0` */
  predicate SameName(a: string, b: string) {
    Lower(a) == Lower(b)
  }

  // ----- trees, and the place in one where the builder is

  datatype Tree = Leaf(text: string) | Section(name: string, args: string, kids: seq<Tree>)

  datatype Frame = Frame(name: string, args: string, kids: seq<Tree>)

  /** Finished trees at top level, and the open sections, innermost last. */
  datatype Zip = Zip(top: seq<Tree>, open: seq<Frame>) {

    function AddAll(ts: seq<Tree>): (z: Zip)
      ensures |z.open| == |open|
    {
      if open == [] then Zip(top + ts, [])
      else
        var n := |open| - 1;
        Zip(top, open[n := open[n].(kids := open[n].kids + ts)])
    }

    function OpenSection(name: string, args: string): Zip {
      Zip(top, open + [Frame(name, args, [])])
    }

    function CloseSection(): (z: Zip)
      requires open != []
      ensures |z.open| == |open| - 1
    {
      var n := |open| - 1;
      Zip(top, open[..n]).AddAll([Section(open[n].name, open[n].args, open[n].kids)])
    }

    function Innermost(): string
      requires open != []
    {
      open[|open| - 1].name
    }

    /** The top-level trees when every open section is taken to end here. */
    function Collapse(): seq<Tree>
      decreases |open|
    {
      if open == [] then top else CloseSection().Collapse()
    }
  }

  const EMPTY := Zip([], [])

  // ----- ap_soak_end_container

  /** The lines behind the end of the section `name`. */
  function Soak(lines: seq<Line>, name: string): (r: Result<seq<Line>>)
    ensures r.Ok? ==> |r.value| < |lines|
    decreases |lines|
  {
    if lines == [] then Err(BeforeEnd(name))
    else match lines[0]
      case Close(n) => if SameName(n, name) then Ok(lines[1..]) else Err(Expected(name, n))
      case Open(n, _) =>
        (match Soak(lines[1..], n) case Err(e) => Err(e) case Ok(rest) => Soak(rest, name))
      case Conditional(n, _, _) =>
        (match Soak(lines[1..], n) case Err(e) => Err(e) case Ok(rest) => Soak(rest, name))
      case _ => Soak(lines[1..], name)
  }

  // ----- ap_build_config_sub, ap_build_cont_config, ap_build_config

  datatype Step = Step(z: Zip, rest: seq<Line>)

  /** One line, with what it pulls in when it is run on read. */
  function Sub(lines: seq<Line>, z: Zip): (r: Result<Step>)
    requires lines != []
    ensures r.Ok? ==> |r.value.rest| < |lines|
    decreases |lines|, 0
  {
    var rest := lines[1..];
    match lines[0]
    case Blank => Ok(Step(z, rest))
    case Plain(text) => Ok(Step(z.AddAll([Leaf(text)]), rest))
    case Open(name, args) => Ok(Step(z.OpenSection(name, args), rest))
    case Close(name) =>
      if z.open == [] then Err(NoSectionOpen(name))
      else if !SameName(name, z.Innermost()) then Err(Expected(z.Innermost(), name))
      else Ok(Step(z.CloseSection(), rest))
    case Conditional(name, _, taken) =>
      if taken then
        match Cont(rest, name, EMPTY)
        case Err(e) => Err(e)
        case Ok(c) => Ok(Step(z.AddAll(c.forest), c.rest))
      else
        match Soak(rest, name)
        case Err(e) => Err(e)
        case Ok(rest') => Ok(Step(z, rest'))
  }

  /** What a conditional section holds, the lines behind it, and whether its end was seen. */
  datatype Contents = Contents(forest: seq<Tree>, rest: seq<Line>, closed: bool)

  predicate EndsSection(lines: seq<Line>, name: string, z: Zip) {
    lines != [] && lines[0].Close? && SameName(lines[0].name, name) && z.open == []
  }

  /** Lines up to the end of the section `name`, or to the end of the file. */
  function Cont(lines: seq<Line>, name: string, z: Zip): (r: Result<Contents>)
    ensures r.Ok? ==> |r.value.rest| <= |lines| && (r.value.closed ==> |r.value.rest| < |lines|)
    ensures r.Ok? && !r.value.closed ==> r.value.rest == []
    decreases |lines|, 1
  {
    if lines == [] then Ok(Contents(z.Collapse(), [], false))
    else if EndsSection(lines, name, z) then Ok(Contents(z.Collapse(), lines[1..], true))
    else match Sub(lines, z)
      case Err(e) => Err(e)
      case Ok(s) => Cont(s.rest, name, s.z)
  }

  function Names(open: seq<Frame>): seq<string> {
    seq(|open|, i requires 0 <= i < |open| => open[i].name)
  }

  /** The open sections as the message about them names them, innermost first. */
  function Unclosed(open: seq<Frame>): seq<string> {
    if open == [] then [] else [open[|open| - 1].name] + Unclosed(open[..|open| - 1])
  }

  /** Every line of the file. */
  function Build(lines: seq<Line>, z: Zip): Result<seq<Tree>>
    decreases |lines|
  {
    if lines == [] then
      if z.open == [] then Ok(z.top) else Err(NotClosed(Unclosed(z.open)))
    else match Sub(lines, z)
      case Err(e) => Err(e)
      case Ok(s) => Build(s.rest, s.z)
  }

  // ----- the reference: recursive descent

  datatype Parsed = Parsed(forest: seq<Tree>, rest: seq<Line>)

  /** What a section line contributes: itself, or its contents if it is a condition that holds. */
  function Contribution(line: Line, kids: seq<Tree>): seq<Tree>
    requires line.Open? || line.Conditional?
  {
    if line.Open? then [Section(line.name, line.args, kids)] else if line.taken then kids else []
  }

  function Single(line: Line): seq<Tree> {
    if line.Plain? then [Leaf(line.text)] else []
  }

  /** The inside of the section `name` up to and including its end. */
  function Descend(lines: seq<Line>, name: string): (r: Result<Parsed>)
    ensures r.Ok? ==> |r.value.rest| < |lines|
    decreases |lines|
  {
    if lines == [] then Err(BeforeEnd(name))
    else
      var line := lines[0];
      match line
      case Close(n) => if SameName(n, name) then Ok(Parsed([], lines[1..])) else Err(Expected(name, n))
      case Open(_, _) => DescendInto(lines, name)
      case Conditional(_, _, _) => DescendInto(lines, name)
      case _ =>
        match Descend(lines[1..], name)
        case Err(e) => Err(e)
        case Ok(p) => Ok(Parsed(Single(line) + p.forest, p.rest))
  }

  function DescendInto(lines: seq<Line>, name: string): (r: Result<Parsed>)
    requires lines != [] && (lines[0].Open? || lines[0].Conditional?)
    ensures r.Ok? ==> |r.value.rest| < |lines|
    decreases |lines|, 0
  {
    match Descend(lines[1..], lines[0].name)
    case Err(e) => Err(e)
    case Ok(inner) =>
      match Descend(inner.rest, name)
      case Err(e) => Err(e)
      case Ok(p) => Ok(Parsed(Contribution(lines[0], inner.forest) + p.forest, p.rest))
  }

  /** A whole file. */
  function DescendFile(lines: seq<Line>): Result<seq<Tree>>
    decreases |lines|
  {
    if lines == [] then Ok([])
    else
      var line := lines[0];
      if line.Close? then Err(NoSectionOpen(line.name))
      else if line.Open? || line.Conditional? then
        match Descend(lines[1..], line.name)
        case Err(e) => Err(e)
        case Ok(inner) =>
          match DescendFile(inner.rest)
          case Err(e) => Err(e)
          case Ok(f) => Ok(Contribution(line, inner.forest) + f)
      else
        match DescendFile(lines[1..])
        case Err(e) => Err(e)
        case Ok(f) => Ok(Single(line) + f)
  }

  // ----- printing

  function Show(t: Tree): seq<Line>
    decreases t, 1
  {
    match t
    case Leaf(text) => [Plain(text)]
    case Section(name, args, kids) => [Open(name, args)] + ShowAll(kids) + [Close(Lower(name))]
  }

  function ShowAll(ts: seq<Tree>): seq<Line>
    decreases ts, 0
  {
    if ts == [] then [] else Show(ts[0]) + ShowAll(ts[1..])
  }

  /** The lines without blanks and comments, and without the case of closing names. */
  function Normal(lines: seq<Line>): seq<Line> {
    if lines == [] then []
    else (match lines[0]
            case Blank => []
            case Close(name) => [Close(Lower(name))]
            case _ => [lines[0]])
         + Normal(lines[1..])
  }
}

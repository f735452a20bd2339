/** The entry lines the walker prints, as values, their rendering into
    text and a parser that recovers them from the text. */
module Lines {

  datatype Option<T> = None | Some(value: T)

  /** The colour markers, byte for byte. Of their text only the first
      character (an escape, never a space and never the connector's glyph)
      matters to the properties below. */
  const Blue: string := "\U{1b}[34m"
  const Reset: string := "\U{1b}[0m"

  /** The connector glyph `└── ` that precedes every entry name. */
  const Connector: string := "\U{2514}\U{2500}\U{2500} "

  /** One printed entry line: a directory line carries the label it shows,
      a file line the bare file name; both carry the indentation depth. */
  datatype Line =
    | DirLine(depth: nat, shown: string)
    | FileLine(depth: nat, name: string)

  /** `" ".repeat(depth)` */
  function Indent(depth: nat): (r: string)
    ensures |r| == depth
    ensures forall i :: 0 <= i < |r| ==> r[i] == ' '
  {
    if depth == 0 then "" else Indent(depth - 1) + " "
  }

  /** The text of a line: indentation, then for a directory the colour
      marker, the connector, the label and the reset marker, and for a
      file the connector and the name. */
  function Render(line: Line): string
  {
    match line
    case DirLine(depth, shown) => Indent(depth) + Blue + Connector + shown + Reset
    case FileLine(depth, name) => Indent(depth) + Connector + name
  }

  function RenderAll(lines: seq<Line>): (r: seq<string>)
    ensures |r| == |lines|
  {
    if lines == [] then [] else [Render(lines[0])] + RenderAll(lines[1..])
  }

  lemma {:induction false} RenderAllAppend(a: seq<Line>, b: seq<Line>)
    ensures RenderAll(a + b) == RenderAll(a) + RenderAll(b)
  {
    if a == [] {
      assert a + b == b;
    } else {
      assert (a + b)[1..] == a[1..] + b;
      RenderAllAppend(a[1..], b);
    }
  }

  lemma {:induction false} RenderAllAt(lines: seq<Line>, k: nat)
    requires k < |lines|
    ensures RenderAll(lines)[k] == Render(lines[k])
  {
    if k > 0 {
      RenderAllAt(lines[1..], k - 1);
    }
  }

  /** The number of spaces a text starts with. */
  function LeadingSpaces(s: string): (k: nat)
    ensures k <= |s|
    ensures forall i :: 0 <= i < k ==> s[i] == ' '
    ensures k < |s| ==> s[k] != ' '
  {
    if s != [] && s[0] == ' ' then 1 + LeadingSpaces(s[1..]) else 0
  }

  /** Reads a printed entry line back: `None` when the text is neither
      form. */
  function ParseLine(s: string): Option<Line>
  {
    var k := LeadingSpaces(s);
    var rest := s[k..];
    var head := Blue + Connector;
    if |head| + |Reset| <= |rest| && rest[..|head|] == head && rest[|rest| - |Reset|..] == Reset then
      Some(DirLine(k, rest[|head|..|rest| - |Reset|]))
    else if |Connector| <= |rest| && rest[..|Connector|] == Connector then
      Some(FileLine(k, rest[|Connector|..]))
    else
      None
  }

  /** The indentation of a printed line is exactly its depth: the depth
      many spaces are followed by a character that is not a space. */
  lemma {:induction false} IndentationIsDepth(line: Line)
    ensures LeadingSpaces(Render(line)) == line.depth
  {
    var s := Render(line);
    var d := line.depth;
    assert s[..d] == Indent(d);
    assert s[d] != ' ' by {
      if line.DirLine? {
        assert s[d] == Blue[0];
      } else {
        assert s[d] == Connector[0];
      }
    }
    LeadingSpacesOf(s, d);
  }

  /** A helper: the count of leading spaces is determined by the first
      non-space position. */
  lemma {:induction false} LeadingSpacesOf(s: string, d: nat)
    requires d < |s|
    requires forall i :: 0 <= i < d ==> s[i] == ' '
    requires s[d] != ' '
    ensures LeadingSpaces(s) == d
  {
    if d > 0 {
      LeadingSpacesOf(s[1..], d - 1);
    }
  }

  /** The text of every print can be read back into the line it renders,
      so directory and file prints cannot be confused. This is about the
      text of one print; a name holding a line break makes that print span
      several lines of the terminal, which this does not cover. */
  lemma {:induction false} ParseRender(line: Line)
    ensures ParseLine(Render(line)) == Some(line)
  {
    var s := Render(line);
    IndentationIsDepth(line);
    var rest := s[line.depth..];
    var head := Blue + Connector;
    match line
    case DirLine(depth, shown) =>
      assert rest == head + shown + Reset;
      assert rest[..|head|] == head;
      assert rest[|rest| - |Reset|..] == Reset;
      assert rest[|head|..|rest| - |Reset|] == shown;
    case FileLine(depth, name) =>
      assert rest == Connector + name;
      assert !(|head| <= |rest| && rest[..|head|] == head) by {
        if |head| <= |rest| {
          assert rest[..|head|][0] == Connector[0] != head[0];
        }
      }
      assert rest[..|Connector|] == Connector;
      assert rest[|Connector|..] == name;
  }

  /** Reads a whole printed sequence back; a line that does not parse is
      dropped. */
  function ParseAll(ss: seq<string>): seq<Line>
  {
    if ss == [] then []
    else
      match ParseLine(ss[0])
      case Some(line) => [line] + ParseAll(ss[1..])
      case None => ParseAll(ss[1..])
  }

  lemma {:induction false} ParseAllRenderAll(lines: seq<Line>)
    ensures ParseAll(RenderAll(lines)) == lines
  {
    if lines != [] {
      ParseRender(lines[0]);
      assert RenderAll(lines)[1..] == RenderAll(lines[1..]);
      ParseAllRenderAll(lines[1..]);
    }
  }

  /** The number of directory lines and of file lines in printed text. */
  function CountDirLines(ss: seq<string>): nat
  {
    if ss == [] then 0
    else (if ParseLine(ss[0]).Some? && ParseLine(ss[0]).value.DirLine? then 1 else 0) + CountDirLines(ss[1..])
  }

  function CountFileLines(ss: seq<string>): nat
  {
    if ss == [] then 0
    else (if ParseLine(ss[0]).Some? && ParseLine(ss[0]).value.FileLine? then 1 else 0) + CountFileLines(ss[1..])
  }
}

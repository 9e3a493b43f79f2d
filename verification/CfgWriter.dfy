/** Writing cfg text, with any comments and padding, and reading it back. */
module CfgWriter {
  import opened Text
  import opened CfgParser

  datatype Entry = Entry(key: string, value: string)

  datatype Section = Section(name: string, entries: seq<Entry>)

  /** A line as someone may write it: something skipped, a header, or an entry, with padding. */
  datatype DocLine =
    | Noise(text: string)
    | HeadLine(l: string, m: string, name: string, n: string, r: string)
    | EntryLine(l: string, key: string, m: string, n: string, value: string, r: string)

  predicate IsPad(s: string) {
    AllSpace(s) && '\n' !in s
  }

  /** Padding at the start of a line: a line that starts with a blank would be skipped. */
  predicate IsIndent(s: string) {
    IsPad(s) && (s != "" ==> s[0] != ' ')
  }

  /** Text that trimming and reading by lines leave alone. */
  predicate IsClean(s: string) {
    IsTrimmed(s) && '\n' !in s
  }

  predicate IsKey(key: string) {
    IsClean(key) && key != "" && '=' !in key && key[0] != '[' && key[0] != '#'
  }

  predicate ValidLine(d: DocLine) {
    match d
    case Noise(text) => (text == "" || text[0] == '#' || text[0] == ' ') && '\n' !in text
    case HeadLine(l, m, name, n, r) => IsIndent(l) && IsPad(m) && IsClean(name) && IsPad(n) && IsPad(r)
    case EntryLine(l, key, m, n, value, r) =>
      IsIndent(l) && IsKey(key) && IsPad(m) && IsPad(n) && IsClean(value) && IsPad(r)
  }

  function LineText(d: DocLine): string {
    match d
    case Noise(text) => text
    case HeadLine(l, m, name, n, r) => l + ("[" + (m + name + n) + "]") + r
    case EntryLine(l, key, m, n, value, r) => l + (key + m + "=" + (n + value + r))
  }

  function LineTexts(doc: seq<DocLine>): (lines: seq<string>)
    ensures |lines| == |doc|
  {
    if doc == [] then [] else [LineText(doc[0])] + LineTexts(doc[1..])
  }

  /** The statements of a document: noise and padding forgotten. */
  function Erase(doc: seq<DocLine>): seq<Stmt> {
    if doc == [] then []
    else match doc[0]
      case Noise(_) => Erase(doc[1..])
      case HeadLine(_, _, name, _, _) => [Header(name)] + Erase(doc[1..])
      case EntryLine(_, key, _, _, value, _) => [Assign(key, value)] + Erase(doc[1..])
  }

  function EntryStatements(es: seq<Entry>): seq<Stmt> {
    if es == [] then [] else [Assign(es[0].key, es[0].value)] + EntryStatements(es[1..])
  }

  function SectionStatements(ss: seq<Section>): seq<Stmt> {
    if ss == [] then []
    else [Header(ss[0].name)] + (EntryStatements(ss[0].entries) + SectionStatements(ss[1..]))
  }

  function EntryMap(es: seq<Entry>): (b: Block)
    ensures forall i :: 0 <= i < |es| ==> es[i].key in b
    ensures forall key :: key in b ==> exists i :: 0 <= i < |es| && es[i].key == key
  {
    if es == [] then map[] else EntryMap(es[1..])[es[0].key := es[0].value]
  }

  /** The block a section stands for: a map from keys to values, and the type. */
  function BlockOf(s: Section): Block {
    EntryMap(s.entries)["type" := s.name]
  }

  predicate DistinctKeys(es: seq<Entry>) {
    && (forall i, j :: 0 <= i < j < |es| ==> es[i].key != es[j].key)
    && (forall i :: 0 <= i < |es| ==> es[i].key != "type")
  }

  predicate AllDistinct(ss: seq<Section>) {
    forall i :: 0 <= i < |ss| ==> DistinctKeys(ss[i].entries)
  }

  // ---------------------------------------------------------------- one line

  lemma {:induction false} HeadLineMeans(d: DocLine)
    requires d.HeadLine? && ValidLine(d)
    ensures Trim(LineText(d)) != "" && Classify(LineText(d)) == Header(d.name)
  {
    var inner := d.m + d.name + d.n;
    var core := "[" + inner + "]";
    TrimUnique(d.l, core, d.r);
    assert Inside(core) == inner;
    TrimUnique(d.m, d.name, d.n);
  }

  /** The last character of a header line goes, whatever it is. */
  lemma {:induction false} HeaderCut(name: string, last: char)
    ensures ClassifyTrimmed("[" + (name + [last])) == Header(Trim(name)) && ClassifyTrimmed("[") == Header("")
  {
    var l := "[" + (name + [last]);
    assert l[1..|l| - 1] == name;
    TrimIdle("");
  }

  /** A trimmed line: a key, padding, '=' and the text after it. */
  lemma {:induction false} AssignMeans(key: string, m: string, tail: string)
    requires IsKey(key) && IsPad(m)
    ensures ClassifyTrimmed(key + m + "=" + tail) == Assign(key, Trim(tail))
  {
    var core := key + m + "=" + tail;
    assert core == key + m + ['='] + tail;
    FindUnique(key + m, '=', tail);
    var cpos := |key + m|;
    assert core[0] == key[0];
    assert core[..cpos] == key + m && core[cpos + 1..] == tail;
    TrimRight(key, m);
  }

  /** A trimmed line without '=' is a key that maps to itself. */
  lemma {:induction false} NoEqualsMeans(l: string)
    requires IsTrimmed(l) && l != "" && l[0] != '[' && '=' !in l
    ensures ClassifyTrimmed(l) == Assign(l, l)
  {
    TrimIdle(l);
    assert Find(l, '=') == |l|;
  }

  /** The line has its padding around a trimmed part. */
  lemma {:induction false} EntryLineTrims(l: string, front: string, n: string, value: string, r: string)
    requires IsPad(l) && front != "" && !IsSpace(front[0]) && !IsSpace(front[|front| - 1])
    requires IsPad(n) && IsClean(value) && IsPad(r)
    ensures exists tail :: Trim(l + (front + (n + value + r))) == front + tail && Trim(tail) == value
  {
    if value == "" {
      TrimUnique(l, front, n + r);
      assert l + front + (n + r) == l + (front + (n + value + r));
      TrimIdle("");
      assert front == front + "";
    } else {
      var core := front + (n + value);
      assert core[0] == front[0] && core[|core| - 1] == value[|value| - 1];
      TrimUnique(l, core, r);
      assert l + core + r == l + (front + (n + value + r));
      TrimLeft(n, value);
    }
  }

  lemma {:induction false} EntryLineMeans(d: DocLine)
    requires d.EntryLine? && ValidLine(d)
    ensures Trim(LineText(d)) != "" && Classify(LineText(d)) == Assign(d.key, d.value)
  {
    var front := d.key + d.m + "=";
    EntryLineTrims(d.l, front, d.n, d.value, d.r);
    assert LineText(d) == d.l + (front + (d.n + d.value + d.r));
    var tail :| Trim(LineText(d)) == front + tail && Trim(tail) == d.value;
    AssignMeans(d.key, d.m, tail);
  }

  lemma {:induction false} TrimRight(s: string, pad: string)
    requires IsTrimmed(s) && AllSpace(pad)
    ensures Trim(s + pad) == s
  {
    TrimUnique("", s, pad);
    assert "" + s + pad == s + pad;
  }

  lemma {:induction false} TrimLeft(pad: string, s: string)
    requires IsTrimmed(s) && AllSpace(pad)
    ensures Trim(pad + s) == s
  {
    TrimUnique(pad, s, "");
    assert pad + s + "" == pad + s;
  }

  lemma {:induction false} LineStart(d: DocLine)
    requires !d.Noise? && ValidLine(d)
    ensures !Skipped(LineText(d)) && '\n' !in LineText(d)
  {
    if d.l == "" {
      assert d.EntryLine? ==> LineText(d)[0] == d.key[0];
    } else {
      assert LineText(d)[0] == d.l[0];
    }
  }

  lemma {:induction false} DocMeans(doc: seq<DocLine>)
    requires ValidLines(doc)
    ensures AllLack(LineTexts(doc), '\n')
    ensures Readable(LineTexts(doc)) && Statements(LineTexts(doc)) == Erase(doc)
  {
    if doc != [] {
      var d := doc[0];
      DocMeans(doc[1..]);
      assert LineTexts(doc)[1..] == LineTexts(doc[1..]);
      if !d.Noise? {
        LineStart(d);
        if d.HeadLine? { HeadLineMeans(d); } else { EntryLineMeans(d); }
      }
    }
  }

  // ---------------------------------------------------------------- one section

  lemma {:induction false} MapStep(b: Block, es: seq<Entry>)
    requires es != [] && DistinctKeys(es)
    ensures b[es[0].key := es[0].value] + EntryMap(es[1..]) == b + EntryMap(es)
  {
  }

  lemma {:induction false} FillBlock(es: seq<Entry>, rest: seq<Stmt>, b: Block)
    requires |b| > 0 && DistinctKeys(es)
    requires forall i :: 0 <= i < |es| ==> es[i].key !in b
    ensures Blocks(EntryStatements(es) + rest, b) == Blocks(rest, b + EntryMap(es))
  {
    if es == [] {
      assert EntryStatements(es) + rest == rest;
      assert b + EntryMap(es) == b;
    } else {
      var b' := Insert(b, es[0].key, es[0].value);
      assert es[0].key in b';
      FillBlock(es[1..], rest, b');
      MapStep(b, es);
      StatementsStep(Assign(es[0].key, es[0].value), EntryStatements(es[1..]), rest, b);
    }
  }

  lemma {:induction false} StatementsStep(stmt: Stmt, stmts: seq<Stmt>, rest: seq<Stmt>, b: Block)
    requires stmt.Assign?
    ensures Blocks([stmt] + stmts + rest, b) == Blocks(stmts + rest, Insert(b, stmt.key, stmt.value))
  {
    assert ([stmt] + stmts + rest)[1..] == stmts + rest;
  }

  lemma {:induction false} TypeFirst(s: Section)
    requires DistinctKeys(s.entries)
    ensures map["type" := s.name] + EntryMap(s.entries) == BlockOf(s)
  {
  }

  lemma {:induction false} SectionBlock(s: Section, rest: seq<Stmt>)
    requires DistinctKeys(s.entries)
    ensures Blocks(EntryStatements(s.entries) + rest, map["type" := s.name]) == Blocks(rest, BlockOf(s))
  {
    var start: Block := map["type" := s.name];
    assert "type" in start;
    FillBlock(s.entries, rest, start);
    TypeFirst(s);
  }

  function BlocksOf(ss: seq<Section>): (bs: seq<Block>) {
    if ss == [] then [] else [BlockOf(ss[0])] + BlocksOf(ss[1..])
  }

  lemma {:induction false} SectionsBlocks(ss: seq<Section>, b: Block)
    requires AllDistinct(ss)
    requires ss != [] || |b| > 0
    ensures Blocks(SectionStatements(ss), b) == (if |b| > 0 then [b] else []) + BlocksOf(ss)
  {
    if ss != [] {
      var s := ss[0];
      var all := SectionStatements(ss);
      var rest := SectionStatements(ss[1..]);
      assert all[1..] == EntryStatements(s.entries) + rest;
      SectionBlock(s, rest);
      assert "type" in BlockOf(s);
      SectionsBlocks(ss[1..], BlockOf(s));
    }
  }

  /** The text of some lines, with or without an end of line after the last. */
  predicate IsText(text: string, lines: seq<string>) {
    text == Terminated(lines, '\n') || text == Join(lines, '\n')
  }

  /** Any document whose statements are those of some sections is read as the blocks of those
      sections: comments, blank lines and padding anywhere change nothing. */
  lemma {:induction false} RoundTrip(doc: seq<DocLine>, ss: seq<Section>, text: string)
    requires ValidLines(doc)
    requires ss != [] && AllDistinct(ss)
    requires Erase(doc) == SectionStatements(ss)
    requires IsText(text, LineTexts(doc))
    ensures Readable(Pieces(text, '\n')) && Parse(text) == BlocksOf(ss)
  {
    var read := LinesRead(doc, text);
    DocMeans(read);
    SectionsBlocks(ss, map[]);
  }

  /** The lines that getline finds: an empty line at the very end is not one. */
  lemma {:induction false} LinesRead(doc: seq<DocLine>, text: string) returns (read: seq<DocLine>)
    requires ValidLines(doc) && IsText(text, LineTexts(doc))
    ensures ValidLines(read) && Erase(read) == Erase(doc)
    ensures Pieces(text, '\n') == LineTexts(read)
  {
    DocMeans(doc);
    read := doc;
    var lines := LineTexts(doc);
    if text == Terminated(lines, '\n') {
      PiecesOfTerminated(lines, '\n');
    } else if lines[|lines| - 1] != "" {
      PiecesOfJoin(lines, '\n');
    } else {
      var n := |doc| - 1;
      read := doc[..n];
      LineTextsInit(doc);
      JoinEmptyLast(lines, '\n');
      DocMeans(read);
      PiecesOfTerminated(lines[..n], '\n');
      EmptyIsNoise(doc[n]);
      EraseInit(doc);
    }
  }

  lemma {:induction false} EmptyIsNoise(d: DocLine)
    requires LineText(d) == ""
    ensures d.Noise?
  {
  }

  lemma {:induction false} LineTextsInit(doc: seq<DocLine>)
    requires doc != []
    ensures LineTexts(doc)[..|doc| - 1] == LineTexts(doc[..|doc| - 1])
    ensures LineTexts(doc)[|doc| - 1] == LineText(doc[|doc| - 1])
  {
    if |doc| > 1 {
      LineTextsInit(doc[1..]);
      assert doc[1..][..|doc| - 2] == doc[..|doc| - 1][1..];
    }
  }

  lemma {:induction false} EraseInit(doc: seq<DocLine>)
    requires doc != [] && doc[|doc| - 1].Noise?
    ensures Erase(doc[..|doc| - 1]) == Erase(doc)
  {
    if |doc| > 1 {
      EraseInit(doc[1..]);
      assert doc[1..][..|doc| - 2] == doc[..|doc| - 1][1..];
    } else {
      assert Erase(doc[1..]) == [];
    }
  }

  lemma {:induction false} JoinEmptyLast(ps: seq<string>, sep: char)
    requires ps != [] && ps[|ps| - 1] == ""
    ensures Join(ps, sep) == Terminated(ps[..|ps| - 1], sep)
  {
    if |ps| > 1 {
      JoinEmptyLast(ps[1..], sep);
      assert ps[1..][..|ps| - 2] == ps[..|ps| - 1][1..];
    }
  }

  // ---------------------------------------------------------------- the plain writer

  predicate ValidEntries(es: seq<Entry>) {
    forall i :: 0 <= i < |es| ==> IsKey(es[i].key) && IsClean(es[i].value)
  }

  predicate ValidLines(doc: seq<DocLine>) {
    forall i :: 0 <= i < |doc| ==> ValidLine(doc[i])
  }

  predicate ValidSection(s: Section) {
    IsClean(s.name) && DistinctKeys(s.entries) && ValidEntries(s.entries)
  }

  predicate AllValid(ss: seq<Section>) {
    forall i :: 0 <= i < |ss| ==> ValidSection(ss[i])
  }

  function PlainEntry(e: Entry): DocLine {
    EntryLine("", e.key, "", "", e.value, "")
  }

  function PlainHead(name: string): DocLine {
    HeadLine("", "", name, "", "")
  }

  function WriteEntries(es: seq<Entry>): seq<DocLine> {
    if es == [] then [] else [PlainEntry(es[0])] + WriteEntries(es[1..])
  }

  function WriteSections(ss: seq<Section>): seq<DocLine> {
    if ss == [] then []
    else [PlainHead(ss[0].name)] + (WriteEntries(ss[0].entries) + WriteSections(ss[1..]))
  }

  lemma {:induction false} WrittenEntriesValid(es: seq<Entry>)
    requires ValidEntries(es)
    ensures ValidLines(WriteEntries(es))
  {
    if es != [] {
      assert ValidLine(PlainEntry(es[0]));
      WrittenEntriesValid(es[1..]);
    }
  }

  lemma {:induction false} WrittenEntries(es: seq<Entry>, rest: seq<DocLine>)
    ensures Erase(WriteEntries(es) + rest) == EntryStatements(es) + Erase(rest)
  {
    if es == [] {
      assert WriteEntries(es) + rest == rest;
    } else {
      WrittenEntries(es[1..], rest);
      EraseEntry(es[0], WriteEntries(es[1..]) + rest);
      ConsAppend(PlainEntry(es[0]), WriteEntries(es[1..]), rest);
      ConsAppend(Assign(es[0].key, es[0].value), EntryStatements(es[1..]), Erase(rest));
    }
  }

  lemma {:induction false} ConsAppend<T>(x: T, a: seq<T>, b: seq<T>)
    ensures [x] + a + b == [x] + (a + b)
  {
  }

  lemma {:induction false} EraseEntry(e: Entry, doc: seq<DocLine>)
    ensures Erase([PlainEntry(e)] + doc) == [Assign(e.key, e.value)] + Erase(doc)
  {
    assert ([PlainEntry(e)] + doc)[1..] == doc;
  }

  lemma {:induction false} WrittenSections(ss: seq<Section>)
    requires AllValid(ss)
    ensures ValidLines(WriteSections(ss))
    ensures Erase(WriteSections(ss)) == SectionStatements(ss)
  {
    if ss != [] {
      var rest := WriteSections(ss[1..]);
      WrittenSections(ss[1..]);
      assert ValidSection(ss[0]);
      WrittenEntriesValid(ss[0].entries);
      WrittenEntries(ss[0].entries, rest);
      assert ValidLine(PlainHead(ss[0].name));
      assert WriteSections(ss)[0] == PlainHead(ss[0].name);
      assert WriteSections(ss)[1..] == WriteEntries(ss[0].entries) + rest;
    }
  }

  /** Header and key=value lines are read back as the sections they were written from. */
  lemma {:induction false} PlainRoundTrip(ss: seq<Section>, text: string)
    requires ss != [] && AllValid(ss)
    requires IsText(text, LineTexts(WriteSections(ss)))
    ensures Readable(Pieces(text, '\n')) && Parse(text) == BlocksOf(ss)
  {
    WrittenSections(ss);
    RoundTrip(WriteSections(ss), ss, text);
  }
}

/** The Darknet cfg reader: Yolo::parseConfigFile (yolo.cpp), from the text of the file. */
module CfgParser {
  import opened Wrappers
  import opened Text

  type Block = map<string, string>

  /** What one line that is not skipped asks for. */
  datatype Stmt = Header(name: string) | Assign(key: string, value: string)

  predicate Skipped(line: string) {
    line == "" || line[0] == ' ' || line[0] == '#'
  }

  /** line.substr(1, line.size() - 2): the last character goes, whatever it is. */
  function Inside(line: string): string
    requires line != ""
  {
    if |line| == 1 then "" else line[1..|line| - 1]
  }

  function Classify(line: string): Stmt
    requires Trim(line) != ""
  {
    ClassifyTrimmed(Trim(line))
  }

  /** The meaning of a line. Without '=' the position is -1: key and value are both the whole line. */
  function ClassifyTrimmed(l: string): Stmt
    requires l != ""
  {
    if l[0] == '[' then Header(Trim(Inside(l)))
    else
      var cpos := Find(l, '=');
      if cpos < |l| then Assign(Trim(l[..cpos]), Trim(l[cpos + 1..])) else Assign(Trim(l), Trim(l))
  }

  /** No line that is read trims to nothing; calling front() on one is undefined. */
  predicate Readable(lines: seq<string>) {
    forall i :: 0 <= i < |lines| ==> Skipped(lines[i]) || Trim(lines[i]) != ""
  }

  function Statements(lines: seq<string>): seq<Stmt>
    requires Readable(lines)
  {
    if lines == [] then []
    else if Skipped(lines[0]) then Statements(lines[1..])
    else [Classify(lines[0])] + Statements(lines[1..])
  }

  /** std::map::insert: an existing key keeps its value. */
  function Insert(b: Block, key: string, value: string): Block {
    if key in b then b else b[key := value]
  }

  /** The blocks that stmts produce when b is the block being filled. */
  function Blocks(stmts: seq<Stmt>, b: Block): (blocks: seq<Block>)
    ensures |blocks| >= 1
  {
    if stmts == [] then [b]
    else match stmts[0]
      case Header(name) =>
        (if |b| > 0 then [b] else []) + Blocks(stmts[1..], map["type" := name])
      case Assign(key, value) =>
        Blocks(stmts[1..], Insert(b, key, value))
  }

  function Parse(text: string): seq<Block>
    requires Readable(Pieces(text, '\n'))
  {
    Blocks(Statements(Pieces(text, '\n')), map[])
  }

  /** std::getline. */
  method GetLine(file: string) returns (line: string, rest: string)
    requires file != ""
    ensures Pieces(file, '\n') == [line] + Pieces(rest, '\n')
    ensures |rest| < |file|
  {
    var n := Find(file, '\n');
    line := file[..n];
    if n < |file| {
      rest := file[n + 1..];
      assert file == line + ['\n'] + rest;
      PiecesCons(line, '\n', rest);
    } else {
      rest := "";
      assert line == file;
      PiecesOne(file, '\n');
    }
  }

  /** The else branch of the loop: what one line that is not a header inserts. */
  method ReadEntry(l: string) returns (key: string, value: string)
    requires l != "" && l[0] != '['
    ensures Assign(key, value) == ClassifyTrimmed(l)
  {
    var cpos := Find(l, '=');
    if cpos < |l| {
      key, value := Trim(l[..cpos]), Trim(l[cpos + 1..]);
    } else {
      key, value := Trim(l), Trim(l);
    }
  }

  method ParseConfigFile(text: string) returns (blocks: seq<Block>)
    requires Readable(Pieces(text, '\n'))
    ensures blocks == Parse(text)
  {
    var file := text;
    blocks := [];
    var block: Block := map[];
    ghost var lines := Pieces(text, '\n');
    while file != ""
      invariant lines == Pieces(file, '\n') && Readable(lines)
      invariant blocks + Blocks(Statements(lines), block) == Parse(text)
      decreases |file|
    {
      var line;
      line, file := GetLine(file);
      ghost var rest := Pieces(file, '\n');
      assert lines[0] == line && lines[1..] == rest;
      lines := rest;
      if line == "" || line[0] == ' ' || line[0] == '#' {
        continue;
      }
      OneMore(blocks, Classify(line), Statements(rest), block);
      line := Trim(line);
      if line[0] == '[' {
        if |block| > 0 {
          blocks := blocks + [block];
          block := map[];
        }
        block := Insert(block, "type", Trim(Inside(line)));
      } else {
        var key, value := ReadEntry(line);
        block := Insert(block, key, value);
      }
    }
    blocks := blocks + [block];
  }

  lemma {:induction false} OneMore(done: seq<Block>, stmt: Stmt, stmts: seq<Stmt>, b: Block)
    ensures stmt.Header? && |b| > 0 ==>
      done + Blocks([stmt] + stmts, b) == (done + [b]) + Blocks(stmts, Insert(map[], "type", stmt.name))
    ensures stmt.Header? && |b| == 0 ==>
      done + Blocks([stmt] + stmts, b) == done + Blocks(stmts, Insert(b, "type", stmt.name))
    ensures stmt.Assign? ==>
      done + Blocks([stmt] + stmts, b) == done + Blocks(stmts, Insert(b, stmt.key, stmt.value))
  {
    assert ([stmt] + stmts)[1..] == stmts;
    assert |b| == 0 ==> b == map[];
  }

  // ---------------------------------------------------------------- what the blocks are

  function Headers(stmts: seq<Stmt>): nat {
    if stmts == [] then 0 else (if stmts[0].Header? then 1 else 0) + Headers(stmts[1..])
  }

  /** An assignment stands before the first header. */
  predicate Leads(stmts: seq<Stmt>) {
    stmts != [] && stmts[0].Assign?
  }

  /** The number of blocks opened by stmts. */
  function Opened(stmts: seq<Stmt>): nat {
    Headers(stmts) + if Leads(stmts) then 1 else 0
  }

  /** The first value assigned to key before the next header. */
  function FirstValue(stmts: seq<Stmt>, key: string): Option<string> {
    if stmts == [] || stmts[0].Header? then None
    else if stmts[0].key == key then Some(stmts[0].value)
    else FirstValue(stmts[1..], key)
  }

  function Lookup(b: Block, key: string): Option<string> {
    if key in b then Some(b[key]) else None
  }

  lemma {:induction false} OpenBlock(stmts: seq<Stmt>, b: Block, key: string)
    requires |b| > 0
    ensures |Blocks(stmts, b)| == 1 + Headers(stmts)
    ensures Lookup(Blocks(stmts, b)[0], key) == if key in b then Some(b[key]) else FirstValue(stmts, key)
  {
    if stmts != [] {
      match stmts[0]
      case Header(name) =>
        OpenBlock(stmts[1..], map["type" := name], key);
      case Assign(k, v) =>
        assert k in Insert(b, k, v);
        OpenBlock(stmts[1..], Insert(b, k, v), key);
    }
  }

  /** A file has one block for each header and one for assignments before the first header, and at
      least one. */
  lemma {:induction false} BlockCount(stmts: seq<Stmt>)
    ensures |Blocks(stmts, map[])| == if Opened(stmts) == 0 then 1 else Opened(stmts)
  {
    if stmts != [] {
      match stmts[0]
      case Header(name) => OpenBlock(stmts[1..], map["type" := name], "type");
      case Assign(k, v) => OpenBlock(stmts[1..], map[k := v], k);
    }
  }

  lemma {:induction false} BlocksSplit(pre: seq<Stmt>, name: string, post: seq<Stmt>, b: Block)
    ensures Blocks(pre + [Header(name)] + post, b)
         == (if pre == [] && |b| == 0 then [] else Blocks(pre, b)) + Blocks(post, map["type" := name])
  {
    var all := pre + [Header(name)] + post;
    if pre == [] {
      assert all[1..] == post;
    } else {
      assert all[1..] == pre[1..] + [Header(name)] + post;
      match pre[0]
      case Header(other) =>
        assert |map["type" := other]| > 0;
        BlocksSplit(pre[1..], name, post, map["type" := other]);
      case Assign(k, v) =>
        assert k in Insert(b, k, v);
        BlocksSplit(pre[1..], name, post, Insert(b, k, v));
    }
  }

  /** The block of any header in any file: its type is the header's text, even if "type=" follows, and
      every other key holds its first assignment in that section. */
  lemma {:induction false} HeaderBlock(pre: seq<Stmt>, name: string, post: seq<Stmt>, key: string)
    ensures var blocks := Blocks(pre + [Header(name)] + post, map[]);
      && Opened(pre) < |blocks|
      && Lookup(blocks[Opened(pre)], key) == if key == "type" then Some(name) else FirstValue(post, key)
  {
    BlocksSplit(pre, name, post, map[]);
    BlockCount(pre);
    var started := map["type" := name];
    assert |started| > 0;
    OpenBlock(post, started, key);
    assert Opened(pre) == 0 ==> pre == [];
  }

  /** The block of the assignments before any header: here "type=" does set the type. */
  lemma {:induction false} LeadingBlock(stmts: seq<Stmt>, key: string)
    requires Leads(stmts)
    ensures Lookup(Blocks(stmts, map[])[0], key) == FirstValue(stmts, key)
  {
    var first := map[stmts[0].key := stmts[0].value];
    assert |first| > 0;
    OpenBlock(stmts[1..], first, key);
  }
}

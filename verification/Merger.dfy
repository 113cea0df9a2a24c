/** Merging tokens into section names, file names, fillers and comments (ld/genlink-cmsis.py). */
module Merger {
  import opened Lexer

  // -------------------------------------------------- names and fillers

  datatype State = Plain | InSection | InFile | InSymbol | InFiller

  /** The variables of Parser.merge_symbols; `temp` counts outside Plain and `reserve` in InFiller. */
  datatype Names = Names(out: seq<Token>, state: State, temp: Token, reserve: seq<Token>)

  const NO_TOKEN: Token := Token(None, "")
  const NAMES_START: Names := Names([], Plain, NO_TOKEN, [])

  /** One turn of the loop of Parser.merge_symbols. */
  function NameStep(m: Names, t: Token): Names {
    match m.state
    case Plain =>
      if t.kind == Fullstop then m.(state := InSection, temp := Token(SectionName, t.value))
      else if t.kind == Slash then m.(state := InFile, temp := Token(FileName, t.value))
      else if t.kind == SymbolName then m.(state := InSymbol, temp := t)
      else if t.kind == Multiply then m.(state := InFiller, temp := Token(Filler, t.value), reserve := [t])
      else m.(out := m.out + [t])
    case InSection =>
      if t.kind == Fullstop then
        var kind := if m.temp.value != "" && m.temp.value[|m.temp.value| - 1] == '.' then FileName else m.temp.kind;
        m.(temp := Token(kind, m.temp.value + t.value))
      else if t.kind == SymbolName || t.kind == Number || t.kind == Multiply then
        m.(temp := Token(m.temp.kind, m.temp.value + t.value))
      else if t.kind == Slash then m.(state := InFile, temp := Token(FileName, m.temp.value + t.value))
      else
        var kind := if m.temp.value == "." then Fullstop else m.temp.kind;
        Flush(m, Token(kind, m.temp.value), t)
    case InFile =>
      if t.kind == Fullstop || t.kind == Slash || t.kind == SymbolName || t.kind == Number || t.kind == Subtract then
        m.(temp := Token(m.temp.kind, m.temp.value + t.value))
      else
        var kind := if m.temp.value == "/DISCARD/" then SectionName else m.temp.kind;
        Flush(m, Token(kind, m.temp.value), t)
    case InSymbol =>
      if t.kind == Fullstop || t.kind == Slash || t.kind == Subtract then
        m.(state := InFile, temp := Token(FileName, m.temp.value + t.value))
      else Flush(m, m.temp, t)
    case InFiller =>
      if t.kind == SymbolName && t.value == "fill" && m.temp.value == "*" then
        m.(temp := Token(m.temp.kind, m.temp.value + t.value), reserve := m.reserve + [t])
      else if t.kind == Multiply && m.temp.value == "*fill" then
        m.(out := m.out + [Token(m.temp.kind, m.temp.value + t.value)], state := Plain)
      else m.(out := m.out + m.reserve + [t], state := Plain)
  }

  /** A finished name and the token after it. */
  function Flush(m: Names, name: Token, t: Token): Names {
    m.(out := m.out + [name, t], state := Plain)
  }

  function MergeNames(m: Names, input: seq<Token>): Names
    decreases |input|
  {
    if input == [] then m else MergeNames(NameStep(m, input[0]), input[1..])
  }

  /** What has been read and not been put out; it is lost when the input ends. */
  function PendingName(m: Names): string {
    if m.state == Plain then "" else m.temp.value
  }

  predicate NamesInv(m: Names) {
    && (m.state != Plain ==> m.temp.value != "")
    && (m.state == InFiller ==> Join(m.reserve) == m.temp.value)
  }

  lemma JoinTwo(a: Token, b: Token)
    ensures Join([a, b]) == a.value + b.value
  {
    JoinConcat([a], [b]);
    JoinOne(a);
    JoinOne(b);
    assert [a] + [b] == [a, b];
  }

  lemma FlushKeeps(m: Names, name: Token, t: Token)
    requires name.value == m.temp.value
    ensures Join(Flush(m, name, t).out) == Join(m.out) + m.temp.value + t.value
  {
    JoinConcat(m.out, [name, t]);
    JoinTwo(name, t);
    assert Join(m.out) + (m.temp.value + t.value) == Join(m.out) + m.temp.value + t.value;
  }

  lemma FillerKeeps(m: Names, t: Token)
    requires NamesInv(m) && m.state == InFiller && t.value != ""
    ensures NamesInv(NameStep(m, t))
    ensures Join(NameStep(m, t).out) + PendingName(NameStep(m, t)) == Join(m.out) + m.temp.value + t.value
  {
    var n := NameStep(m, t);
    if n.state == InFiller {
      JoinConcat(m.reserve, [t]);
      JoinOne(t);
      assert Join(m.out) + (m.temp.value + t.value) == Join(m.out) + m.temp.value + t.value;
    } else if t.kind == Multiply && m.temp.value == "*fill" {
      var whole := Token(m.temp.kind, m.temp.value + t.value);
      JoinConcat(m.out, [whole]);
      JoinOne(whole);
      assert Join(m.out) + (m.temp.value + t.value) == Join(m.out) + m.temp.value + t.value;
    } else {
      JoinConcat(m.out + m.reserve, [t]);
      JoinConcat(m.out, m.reserve);
      JoinOne(t);
    }
  }

  lemma PlainKeeps(m: Names, t: Token)
    requires m.state == Plain && t.value != ""
    ensures NamesInv(NameStep(m, t))
    ensures Join(NameStep(m, t).out) + PendingName(NameStep(m, t)) == Join(m.out) + t.value
  {
    JoinOne(t);
    if NameStep(m, t).state == Plain {
      JoinConcat(m.out, [t]);
    }
  }

  /** One token more: nothing is lost, whichever branch is taken. */
  lemma NameStepKeeps(m: Names, t: Token)
    requires NamesInv(m) && t.value != ""
    ensures NamesInv(NameStep(m, t))
    ensures Join(NameStep(m, t).out) + PendingName(NameStep(m, t)) == Join(m.out) + PendingName(m) + t.value
  {
    var n := NameStep(m, t);
    if m.state == Plain {
      PlainKeeps(m, t);
    } else if m.state == InFiller {
      FillerKeeps(m, t);
    } else if n.state == Plain {
      var name := n.out[|m.out|];
      assert n == Flush(m, name, t) && name.value == m.temp.value;
      FlushKeeps(m, name, t);
    } else {
      Associate(Join(m.out), m.temp.value, t.value);
    }
  }

  ghost predicate NoneEmpty(input: seq<Token>) {
    forall i :: 0 <= i < |input| ==> input[i].value != ""
  }

  lemma {:induction false} MergeNamesKeeps(m: Names, input: seq<Token>)
    requires NamesInv(m) && NoneEmpty(input)
    ensures NamesInv(MergeNames(m, input))
    ensures Join(MergeNames(m, input).out) + PendingName(MergeNames(m, input)) == Join(m.out) + PendingName(m) + Join(input)
    decreases |input|
  {
    if input != [] {
      NameStepKeeps(m, input[0]);
      MergeNamesKeeps(NameStep(m, input[0]), input[1..]);
      Associate(Join(m.out) + PendingName(m), input[0].value, Join(input[1..]));
    }
  }

  /** Parser.merge_symbols. */
  method MergeSymbols(input: seq<Token>) returns (tokens: seq<Token>)
    ensures tokens == MergeNames(NAMES_START, input).out
  {
    var m := NAMES_START;
    for q := 0 to |input|
      invariant MergeNames(NAMES_START, input) == MergeNames(m, input[q..])
    {
      m := NameStep(m, input[q]);
    }
    tokens := m.out;
  }

  // ------------------------------------------------------------ comments

  datatype Status = Outside | InBlock | InLine

  /** The variables of LinkerScriptParser.merge_symbols. */
  datatype Comments = Comments(out: seq<Token>, status: Status, temp: string)

  const COMMENTS_START: Comments := Comments([], Outside, "")

  /** One turn of the loop of LinkerScriptParser.merge_symbols. The test for the newline that should end a line comment
      compares the token itself with a token type, which never holds. */
  function CommentStep(m: Comments, t: Token): Comments {
    match m.status
    case Outside =>
      if t.kind == BlockCommentStart then m.(status := InBlock, temp := t.value)
      else if t.kind == LineCommentStart then m.(status := InLine, temp := t.value)
      else m.(out := m.out + [t])
    case InBlock =>
      if t.kind == BlockCommentEnd then m.(out := m.out + [Token(Comment, m.temp + t.value)], status := Outside)
      else m.(temp := m.temp + t.value)
    case InLine => m.(temp := m.temp + t.value)
  }

  function MergeComments(m: Comments, input: seq<Token>): Comments
    decreases |input|
  {
    if input == [] then m else MergeComments(CommentStep(m, input[0]), input[1..])
  }

  function PendingComment(m: Comments): string {
    if m.status == Outside then "" else m.temp
  }

  lemma CommentStepKeeps(m: Comments, t: Token)
    ensures Join(CommentStep(m, t).out) + PendingComment(CommentStep(m, t)) == Join(m.out) + PendingComment(m) + t.value
  {
    var n := CommentStep(m, t);
    Associate(Join(m.out), PendingComment(m), t.value);
    if n.status == Outside {
      var last := n.out[|m.out|];
      assert last.value == PendingComment(m) + t.value;
      JoinConcat(m.out, [last]);
      JoinOne(last);
    }
  }

  lemma {:induction false} MergeCommentsKeeps(m: Comments, input: seq<Token>)
    ensures Join(MergeComments(m, input).out) + PendingComment(MergeComments(m, input))
         == Join(m.out) + PendingComment(m) + Join(input)
    decreases |input|
  {
    if input != [] {
      CommentStepKeeps(m, input[0]);
      MergeCommentsKeeps(CommentStep(m, input[0]), input[1..]);
      Associate(Join(m.out) + PendingComment(m), input[0].value, Join(input[1..]));
    }
  }

  /** A comment that is open has text, once the tokens have. */
  lemma {:induction false} OpenCommentHasText(m: Comments, input: seq<Token>)
    requires NoneEmpty(input) && (m.status != Outside ==> m.temp != "")
    ensures MergeComments(m, input).status != Outside ==> PendingComment(MergeComments(m, input)) != ""
    decreases |input|
  {
    if input != [] {
      OpenCommentHasText(CommentStep(m, input[0]), input[1..]);
    }
  }

  // --------------------------------------------------- a whole linker script

  function Named(text: string): Names {
    MergeNames(NAMES_START, Tokens(text))
  }

  function Commented(text: string): Comments {
    MergeComments(COMMENTS_START, Named(text).out)
  }

  /** LinkerScriptParser.parse: the tokens of a script after both merges. */
  function Script(text: string): seq<Token> {
    Commented(text).out
  }

  /** Merging keeps every character in order, but for one suffix that is still pending when the input ends. */
  lemma ScriptAndPending(text: string)
    ensures Join(Script(text)) + PendingComment(Commented(text)) + PendingName(Named(text)) == text
  {
    var named := Named(text).out;
    LexingIsLossless(text);
    MergeNamesKeeps(NAMES_START, Tokens(text));
    NothingBefore(text);
    assert Join(named) + PendingName(Named(text)) == text;
    MergeCommentsKeeps(COMMENTS_START, named);
    NothingBefore(Join(named));
  }

  lemma NothingBefore(s: string)
    ensures Join([]) + "" + s == s
  {
  }

  lemma StepNotEmpty(m: Names, t: Token)
    requires NamesInv(m) && t.value != "" && NoneEmpty(m.out) && NoneEmpty(m.reserve)
    ensures NoneEmpty(NameStep(m, t).out) && NoneEmpty(NameStep(m, t).reserve)
  {
  }

  /** Tokens put out are not empty. */
  lemma {:induction false} OutNotEmpty(m: Names, input: seq<Token>)
    requires NamesInv(m) && NoneEmpty(input) && NoneEmpty(m.out) && NoneEmpty(m.reserve)
    ensures NoneEmpty(MergeNames(m, input).out)
    decreases |input|
  {
    if input != [] {
      NameStepKeeps(m, input[0]);
      StepNotEmpty(m, input[0]);
      OutNotEmpty(NameStep(m, input[0]), input[1..]);
    }
  }

  /** Parsing and joining gives a script back exactly when neither merge is in the middle of something at its end. */
  lemma ScriptIsTextIff(text: string)
    ensures Join(Script(text)) == text <==> Named(text).state == Plain && Commented(text).status == Outside
  {
    LexingIsLossless(text);
    ScriptAndPending(text);
    MergeNamesKeeps(NAMES_START, Tokens(text));
    OutNotEmpty(NAMES_START, Tokens(text));
    OpenCommentHasText(COMMENTS_START, Named(text).out);
    var script, comment, name := Join(Script(text)), PendingComment(Commented(text)), PendingName(Named(text));
    assert |script + comment + name| == |script| + |comment| + |name|;
    if comment == "" && name == "" {
      assert script + comment + name == script;
    }
  }

  /** LinkerScriptParser.merge_symbols. */
  method MergeScript(input: seq<Token>) returns (tokens: seq<Token>)
    ensures tokens == MergeComments(COMMENTS_START, MergeNames(NAMES_START, input).out).out
  {
    var intermediate := MergeSymbols(input);
    var m := COMMENTS_START;
    for q := 0 to |intermediate|
      invariant MergeComments(COMMENTS_START, intermediate) == MergeComments(m, intermediate[q..])
    {
      m := CommentStep(m, intermediate[q]);
    }
    tokens := m.out;
  }
}

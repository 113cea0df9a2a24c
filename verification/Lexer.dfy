/** The lexer of the linker tool (ld/genlink-cmsis.py). */
module Lexer {

  /** Token types; None is a token that has not begun. */
  datatype Kind =
    | None | SlashCandidate | BlockCommentStart | BlockCommentEnd | SymbolName | Slash | LineCommentStart | WhiteSpace
    | Colon | Semicolon | Fullstop | Comma | Newline | LeftBracket | RightBracket | LeftSharpBracket | RightSharpBracket
    | LeftCurlyBracket | RightCurlyBracket | Assign | Compare | Multiply | Add | Subtract | Increment | Decrement | Number
    | GreaterThan | LessThan | PipeInto | PipeFrom | StringLiteral | Apostrophe | QuestionMark | Eof | GreaterThanEqual
    | LessThanEqual | FileName | SectionName | Filler | Comment | Ampersand | ExclamationMark | Text

  datatype Token = Token(kind: Kind, value: string)

  /** What the lexer does with a character: goes on with the token, ends the token with it, or puts it back and ends the
      token before it. */
  datatype Step = More(kind: Kind) | End(kind: Kind) | Back(kind: Kind)

  predicate IsLetter(c: char) {
    'A' <= c <= 'Z' || 'a' <= c <= 'z' || c == '_'
  }

  predicate IsDigit(c: char) {
    '0' <= c <= '9'
  }

  predicate IsBlank(c: char) {
    c == ' ' || c == '\t'
  }

  /** The first character of a token. */
  function Start(c: char): Step {
    if c == '/' then More(SlashCandidate)
    else if IsLetter(c) then More(SymbolName)
    else if IsBlank(c) then More(WhiteSpace)
    else if c == ':' then End(Colon)
    else if c == ';' then End(Semicolon)
    else if c == '.' then End(Fullstop)
    else if c == ',' then End(Comma)
    else if c == '\r' then More(Newline)
    else if c == '\n' then End(Newline)
    else if c == '(' then End(LeftBracket)
    else if c == ')' then End(RightBracket)
    else if c == '[' then End(LeftSharpBracket)
    else if c == ']' then End(RightSharpBracket)
    else if c == '{' then End(LeftCurlyBracket)
    else if c == '}' then End(RightCurlyBracket)
    else if c == '=' then More(Assign)
    else if c == '*' then More(Multiply)
    else if IsDigit(c) then More(Number)
    else if c == '>' then More(GreaterThan)
    else if c == '<' then More(LessThan)
    else if c == '-' then More(Subtract)
    else if c == '+' then More(Add)
    else if c == '"' then More(StringLiteral)
    else if c == '\'' then End(Apostrophe)
    else if c == '?' then End(QuestionMark)
    else if c == '!' then End(ExclamationMark)
    else if c == '&' then End(Ampersand)
    else End(Text)
  }

  /** A later character c of a token; value ends with it. */
  function Next(kind: Kind, value: string, c: char): Step {
    match kind
    case StringLiteral => if c == '"' then End(kind) else More(kind)
    case Subtract => if c == '-' then End(Decrement) else Back(kind)
    case Add => if c == '+' then End(Increment) else Back(kind)
    case GreaterThan => if c == '>' then End(PipeInto) else if c == '=' then End(GreaterThanEqual) else Back(kind)
    case LessThan => if c == '<' then End(PipeFrom) else if c == '=' then End(LessThanEqual) else Back(kind)
    case Number =>
      if IsDigit(c) then More(kind)
      else if c == 'x' then (if value == "0x" then More(kind) else End(Text))
      else if 'A' <= c <= 'F' || 'a' <= c <= 'f' then (if "0x" <= value then More(kind) else End(Text))
      else Back(kind)
    case Multiply => if c == '/' then End(BlockCommentEnd) else Back(kind)
    case Assign => if c == '=' then End(Compare) else Back(kind)
    case Newline => if c == '\n' then End(kind) else Back(kind)
    case SlashCandidate =>
      if c == '*' then End(BlockCommentStart) else if c == '/' then End(LineCommentStart) else Back(Slash)
    case SymbolName => if IsLetter(c) || IsDigit(c) then More(kind) else Back(kind)
    case WhiteSpace => if IsBlank(c) then More(kind) else Back(kind)
    // No other type is waiting for a character.
    case _ => Back(kind)
  }

  /** Type and length of the token that has taken the first n characters of s; the end of the text ends any token. */
  function Continue(kind: Kind, s: string, n: nat): (r: (Kind, nat))
    requires n <= |s|
    ensures n <= r.1 <= |s|
    decreases |s| - n
  {
    if n == |s| then (kind, n)
    else
      match Next(kind, s[..n + 1], s[n])
      case More(k) => Continue(k, s, n + 1)
      case End(k) => (k, n + 1)
      case Back(k) => (k, n)
  }

  /** Type and length of the first token of s. */
  function First(s: string): (r: (Kind, nat))
    ensures r.1 <= |s|
    ensures s != "" ==> r.1 > 0
  {
    if s == "" then (Eof, 0)
    else
      match Start(s[0])
      case More(k) => Continue(k, s, 1)
      case End(k) => (k, 1)
      case Back(k) => (k, 1)
  }

  /** Every token of a text. */
  function Tokens(s: string): seq<Token>
    decreases |s|
  {
    if s == "" then []
    else
      var (kind, n) := First(s);
      [Token(kind, s[..n])] + Tokens(s[n..])
  }

  /** TokenList.join. */
  function Join(tokens: seq<Token>): string {
    if tokens == [] then "" else tokens[0].value + Join(tokens[1..])
  }

  lemma Associate(a: string, b: string, c: string)
    ensures a + b + c == a + (b + c)
  {
  }

  lemma {:induction false} JoinConcat(a: seq<Token>, b: seq<Token>)
    ensures Join(a + b) == Join(a) + Join(b)
  {
    if a == [] {
      assert a + b == b;
    } else {
      JoinConcat(a[1..], b);
      assert (a + b)[1..] == a[1..] + b;
      Associate(a[0].value, Join(a[1..]), Join(b));
    }
  }

  lemma JoinOne(t: Token)
    ensures Join([t]) == t.value
  {
  }

  /** Nothing is lost or changed by splitting a text into tokens, and no token is empty. */
  lemma {:induction false} LexingIsLossless(s: string)
    ensures Join(Tokens(s)) == s
    ensures forall i :: 0 <= i < |Tokens(s)| ==> Tokens(s)[i].value != ""
    decreases |s|
  {
    if s != "" {
      var (kind, n) := First(s);
      LexingIsLossless(s[n..]);
      assert s == s[..n] + s[n..];
      assert Tokens(s)[1..] == Tokens(s[n..]);
    }
  }

  // --------------------------------------------------------------- the stream

  /** A text read character by character, with the characters that were put back. */
  class Stream {
    const text: string
    var position: nat
    var unread: seq<char>

    ghost predicate Valid()
      reads this
    {
      position <= |text|
    }

    /** What is still to be read: the characters put back, last in first out, and then the rest of the text. */
    ghost function Remaining(): string
      requires Valid()
      reads this
    {
      Reversed(unread) + text[position..]
    }

    constructor (text: string)
      ensures Valid() && Remaining() == text && this.text == text
    {
      this.text := text;
      position, unread := 0, [];
    }

    /** Stream.read, with the empty result as `some` false. */
    method Read() returns (some: bool, c: char)
      requires Valid()
      modifies this
      ensures Valid() && some == (old(Remaining()) != "")
      ensures some ==> c == old(Remaining())[0] && Remaining() == old(Remaining())[1..]
      ensures !some ==> Remaining() == old(Remaining())
    {
      if |unread| > 0 {
        some, c := true, unread[|unread| - 1];
        unread := unread[..|unread| - 1];
      } else if position < |text| {
        some, c := true, text[position];
        position := position + 1;
      } else {
        some, c := false, ' ';
      }
    }

    /** Stream.undo_read. */
    method UndoRead(c: char)
      requires Valid()
      modifies this
      ensures Valid() && Remaining() == [c] + old(Remaining())
    {
      assert (unread + [c])[..|unread|] == unread;
      unread := unread + [c];
    }
  }

  function Reversed(s: seq<char>): seq<char> {
    if s == [] then [] else [s[|s| - 1]] + Reversed(s[..|s| - 1])
  }

  lemma ContinueStep(kind: Kind, s: string, value: string, c: char)
    requires |value| < |s| && value == s[..|value|] && c == s[|value|]
    ensures value + [c] == s[..|value| + 1]
    ensures var n := |value|;
            Continue(kind, s, n) ==
              match Next(kind, value + [c], c) case More(k) => Continue(k, s, n + 1) case End(k) => (k, n + 1) case Back(k) => (k, n)
  {
  }

  /** Parser.token. */
  method NextToken(stream: Stream) returns (token: Token)
    requires stream.Valid()
    modifies stream
    ensures stream.Valid()
    ensures var s := old(stream.Remaining()); var (kind, n) := First(s);
            token == Token(kind, s[..n]) && stream.Remaining() == s[n..]
  {
    ghost var s := stream.Remaining();
    var kind, value := None, "";
    var some, c := stream.Read();
    if !some {
      return Token(Eof, "");
    }
    value := [c];
    var step := Start(c);
    kind := step.kind;
    var running := step.More?;
    while running
      invariant stream.Valid()
      invariant |value| <= |s| && value == s[..|value|] && stream.Remaining() == s[|value|..]
      invariant running ==> First(s) == Continue(kind, s, |value|)
      invariant !running ==> First(s) == (kind, |value|)
      decreases running, |s| - |value|
    {
      some, c := stream.Read();
      if !some {
        return Token(kind, value);
      }
      ContinueStep(kind, s, value, c);
      value := value + [c];
      step := Next(kind, value, c);
      kind := step.kind;
      if step.Back? {
        stream.UndoRead(c);
        value := value[..|value| - 1];
      }
      running := step.More?;
    }
    token := Token(kind, value);
  }

  /** Parser.parse: the tokens of a text, which joined give the text again. */
  method Parse(text: string) returns (tokens: seq<Token>)
    ensures tokens == Tokens(text) && Join(tokens) == text
  {
    LexingIsLossless(text);
    var stream := new Stream(text);
    tokens := [];
    while true
      invariant stream.Valid() && fresh(stream)
      invariant Tokens(text) == tokens + Tokens(stream.Remaining())
      decreases |stream.Remaining()|
    {
      ghost var s := stream.Remaining();
      var token := NextToken(stream);
      TokensStep(tokens, s, token, stream.Remaining());
      if token.kind == Eof {
        return;
      }
      tokens := tokens + [token];
    }
  }

  lemma TokensStep(done: seq<Token>, s: string, token: Token, rest: string)
    requires var (kind, n) := First(s); token == Token(kind, s[..n]) && rest == s[n..]
    ensures token.kind == Eof <==> s == ""
    ensures token.kind == Eof ==> done + Tokens(s) == done
    ensures token.kind != Eof ==> |rest| < |s| && done + Tokens(s) == done + [token] + Tokens(rest)
  {
    EofOnlyAtEnd(s);
    if s == "" {
      assert done + [] == done;
    } else {
      assert Tokens(s) == [token] + Tokens(rest);
      assert done + ([token] + Tokens(rest)) == done + [token] + Tokens(rest);
    }
  }

  lemma EofOnlyAtEnd(s: string)
    ensures First(s).0 == Eof <==> s == ""
  {
    if s != "" && Start(s[0]).More? {
      NotEof(Start(s[0]).kind, s, 1);
    }
  }

  lemma NextNotEof(kind: Kind, value: string, c: char)
    requires kind != Eof
    ensures Next(kind, value, c).kind != Eof
  {
  }

  lemma {:induction false} NotEof(kind: Kind, s: string, n: nat)
    requires n <= |s| && kind != Eof
    ensures Continue(kind, s, n).0 != Eof
    decreases |s| - n
  {
    if n < |s| {
      NextNotEof(kind, s[..n + 1], s[n]);
      var step := Next(kind, s[..n + 1], s[n]);
      if step.More? {
        NotEof(step.kind, s, n + 1);
      }
    }
  }
}

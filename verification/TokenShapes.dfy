/** What the tokens of the linker tool's lexer look like, kind by kind (ld/genlink-cmsis.py). */
module TokenShapes {
  import opened Lexer

  predicate IsHexLetter(c: char) {
    'A' <= c <= 'F' || 'a' <= c <= 'f'
  }

  predicate IsName(v: string) {
    v != "" && IsLetter(v[0]) && forall i :: 0 <= i < |v| ==> IsLetter(v[i]) || IsDigit(v[i])
  }

  predicate AllBlank(v: string) {
    v != "" && forall i :: 0 <= i < |v| ==> IsBlank(v[i])
  }

  predicate IsDecimal(v: string) {
    v != "" && forall i :: 0 <= i < |v| ==> IsDigit(v[i])
  }

  predicate IsHexadecimal(v: string) {
    "0x" <= v && forall i :: 2 <= i < |v| ==> IsDigit(v[i]) || IsHexLetter(v[i])
  }

  predicate IsNumber(v: string) {
    IsDecimal(v) || IsHexadecimal(v)
  }

  /** A quote and what follows it up to the next quote. */
  predicate IsString(v: string) {
    v != "" && v[0] == '"' && forall i :: 1 <= i < |v| - 1 ==> v[i] != '"'
  }

  predicate IsClosed(v: string) {
    |v| > 1 && v[|v| - 1] == '"'
  }

  /** A number with a letter that does not belong to it, or a character that begins nothing else. */
  predicate IsText(v: string) {
    if |v| == 1 then !IsLetter(v[0]) && !IsDigit(v[0]) && !IsBlank(v[0]) && v[0] !in "/:;.,\r\n()[]{}=*><-+\"'?!&"
    else |v| > 1 && IsNumber(v[..|v| - 1]) && (v[|v| - 1] == 'x' || IsHexLetter(v[|v| - 1])) && !IsNumber(v)
  }

  /** The characters a token of each kind is made of. */
  predicate Shape(k: Kind, v: string) {
    match k
    case SlashCandidate => v == "/"
    case BlockCommentStart => v == "/*"
    case BlockCommentEnd => v == "*/"
    case SymbolName => IsName(v)
    case Slash => v == "/"
    case LineCommentStart => v == "//"
    case WhiteSpace => AllBlank(v)
    case Colon => v == ":"
    case Semicolon => v == ";"
    case Fullstop => v == "."
    case Comma => v == ","
    case Newline => v == "\n" || v == "\r" || v == "\r\n"
    case LeftBracket => v == "("
    case RightBracket => v == ")"
    case LeftSharpBracket => v == "["
    case RightSharpBracket => v == "]"
    case LeftCurlyBracket => v == "{"
    case RightCurlyBracket => v == "}"
    case Assign => v == "="
    case Compare => v == "=="
    case Multiply => v == "*"
    case Add => v == "+"
    case Subtract => v == "-"
    case Increment => v == "++"
    case Decrement => v == "--"
    case Number => IsNumber(v)
    case GreaterThan => v == ">"
    case LessThan => v == "<"
    case PipeInto => v == ">>"
    case PipeFrom => v == "<<"
    case StringLiteral => IsString(v)
    case Apostrophe => v == "'"
    case QuestionMark => v == "?"
    case GreaterThanEqual => v == ">="
    case LessThanEqual => v == "<="
    case Ampersand => v == "&"
    case ExclamationMark => v == "!"
    case Text => IsText(v)
    case _ => false
  }

  /** The next character does not go on with the token. */
  predicate EndsBefore(k: Kind, v: string, c: char) {
    match k
    case SlashCandidate => false
    case Slash => c != '*' && c != '/'
    case SymbolName => !IsLetter(c) && !IsDigit(c)
    case WhiteSpace => !IsBlank(c)
    case Newline => v == "\r" ==> c != '\n'
    case Assign => c != '='
    case Multiply => c != '/'
    case Add => c != '+'
    case Subtract => c != '-'
    case Number => !IsDigit(c) && c != 'x' && !IsHexLetter(c)
    case GreaterThan => c != '>' && c != '='
    case LessThan => c != '<' && c != '='
    case StringLiteral => IsClosed(v)
    case _ => true
  }

  /** The first n characters of s are a token of the kind, and no longer one. */
  ghost predicate IsToken(s: string, r: (Kind, nat)) {
    0 < r.1 <= |s| && Shape(r.0, s[..r.1]) && (r.1 < |s| ==> EndsBefore(r.0, s[..r.1], s[r.1]))
  }

  lemma {:induction false} NameShape(s: string, n: nat)
    requires 0 < n <= |s| && IsName(s[..n])
    ensures IsToken(s, Continue(SymbolName, s, n))
    decreases |s| - n
  {
    if n < |s| && (IsLetter(s[n]) || IsDigit(s[n])) {
      assert s[..n + 1] == s[..n] + [s[n]];
      NameShape(s, n + 1);
    }
  }

  lemma {:induction false} BlankShape(s: string, n: nat)
    requires 0 < n <= |s| && AllBlank(s[..n])
    ensures IsToken(s, Continue(WhiteSpace, s, n))
    decreases |s| - n
  {
    if n < |s| && IsBlank(s[n]) {
      assert s[..n + 1] == s[..n] + [s[n]];
      BlankShape(s, n + 1);
    }
  }

  lemma {:induction false} StringShape(s: string, n: nat)
    requires 0 < n <= |s| && IsString(s[..n]) && !IsClosed(s[..n])
    ensures IsToken(s, Continue(StringLiteral, s, n))
    decreases |s| - n
  {
    if n < |s| {
      assert s[..n + 1] == s[..n] + [s[n]];
      if s[n] != '"' {
        StringShape(s, n + 1);
      }
    }
  }

  /** One more character of a number: it is a number still, or text, or the number ended before it. */
  lemma NumberStep(v: string, c: char)
    requires IsNumber(v)
    ensures var step := Next(Number, v + [c], c);
            match step
            case More(k) => k == Number && IsNumber(v + [c])
            case End(k) => k == Text && IsText(v + [c])
            case Back(k) => k == Number && EndsBefore(Number, v, c)
  {
    assert (v + [c])[..|v|] == v;
  }

  lemma {:induction false} NumberShape(s: string, n: nat)
    requires 0 < n <= |s| && IsNumber(s[..n])
    ensures IsToken(s, Continue(Number, s, n))
    decreases |s| - n
  {
    if n < |s| {
      assert s[..n + 1] == s[..n] + [s[n]];
      NumberStep(s[..n], s[n]);
      if Next(Number, s[..n + 1], s[n]).More? {
        NumberShape(s, n + 1);
      }
    }
  }

  /** Kinds whose second character decides. */
  predicate IsPair(k: Kind) {
    k in {SlashCandidate, Newline, Assign, Multiply, GreaterThan, LessThan, Subtract, Add}
  }

  lemma PairShape(k: Kind, s: string)
    requires s != "" && IsPair(k) && Start(s[0]) == More(k)
    ensures IsToken(s, Continue(k, s, 1))
  {
    PairStart(k, s[0]);
    assert s[..1] == [s[0]];
    if |s| > 1 {
      assert s[..2] == [s[0], s[1]];
      PairNext(k, s[0], s[1]);
    }
  }

  lemma PairStart(k: Kind, c: char)
    requires IsPair(k) && Start(c) == More(k)
    ensures Shape(k, [c]) && (k == Newline ==> c == '\r')
  {
  }

  lemma PairNext(k: Kind, c: char, d: char)
    requires IsPair(k) && Shape(k, [c]) && (k == Newline ==> c == '\r')
    ensures var step := Next(k, [c, d], d);
            && !step.More?
            && (step.End? ==> Shape(step.kind, [c, d]) && forall e :: EndsBefore(step.kind, [c, d], e))
            && (step.Back? ==> Shape(step.kind, [c]) && EndsBefore(step.kind, [c], d))
  {
  }

  /** How a token begins. */
  lemma StartShape(c: char)
    ensures match Start(c)
            case More(k) =>
              || IsPair(k)
              || (k == SymbolName && IsName([c])) || (k == WhiteSpace && AllBlank([c])) || (k == Number && IsDecimal([c]))
              || (k == StringLiteral && IsString([c]))
            case End(k) => Shape(k, [c]) && forall e :: EndsBefore(k, [c], e)
            case Back(_) => false
  {
  }

  /** Every token has the characters of its kind and is as long as they go on. */
  lemma FirstIsToken(s: string)
    requires s != ""
    ensures IsToken(s, First(s))
  {
    StartShape(s[0]);
    assert s[..1] == [s[0]];
    match Start(s[0]) {
      case More(k) =>
        if IsPair(k) {
          PairShape(k, s);
        } else if k == SymbolName {
          NameShape(s, 1);
        } else if k == WhiteSpace {
          BlankShape(s, 1);
        } else if k == Number {
          NumberShape(s, 1);
        } else {
          StringShape(s, 1);
        }
      case End(k) =>
    }
  }

  /** Every token of a text has the characters of its kind. */
  lemma {:induction false} TokensHaveShape(s: string)
    ensures forall i :: 0 <= i < |Tokens(s)| ==> Shape(Tokens(s)[i].kind, Tokens(s)[i].value)
    decreases |s|
  {
    if s != "" {
      var (k, n) := First(s);
      FirstIsToken(s);
      TokensHaveShape(s[n..]);
      assert Tokens(s) == [Token(k, s[..n])] + Tokens(s[n..]);
    }
  }
}

/** Which linker scripts survive parsing and joining, told from the text alone (ld/genlink-cmsis.py). */
module ScriptText {
  import opened Lexer
  import opened Merger

  datatype Mark = OpenMark | CloseMark | LineMark

  /** What follows the string whose opening quote has been read. */
  function AfterString(s: string): (r: string)
    ensures |r| <= |s|
  {
    if s == "" then "" else if s[0] == '"' then s[1..] else AfterString(s[1..])
  }

  /** The comment marks of a text from left to right, outside of strings; a string may begin inside a comment. */
  function Marks(s: string): seq<Mark>
    decreases |s|
  {
    if s == "" then []
    else if s[0] == '"' then Marks(AfterString(s[1..]))
    else if "/*" <= s then [OpenMark] + Marks(s[2..])
    else if "//" <= s then [LineMark] + Marks(s[2..])
    else if "*/" <= s then [CloseMark] + Marks(s[2..])
    else Marks(s[1..])
  }

  function MarkOf(k: Kind): seq<Mark> {
    match k
    case BlockCommentStart => [OpenMark]
    case BlockCommentEnd => [CloseMark]
    case LineCommentStart => [LineMark]
    case _ => []
  }

  function KindMarks(tokens: seq<Token>): seq<Mark> {
    if tokens == [] then [] else MarkOf(tokens[0].kind) + KindMarks(tokens[1..])
  }

  /** Block comments end at their first closing mark; nothing ends a line comment. */
  function After(status: Status, marks: seq<Mark>): Status
    decreases |marks|
  {
    if marks == [] then status
    else
      After(match status
            case Outside => (match marks[0] case OpenMark => InBlock case LineMark => InLine case CloseMark => Outside)
            case InBlock => if marks[0] == CloseMark then Outside else InBlock
            case InLine => InLine, marks[1..])
  }

  // ------------------------------------------------------- marks of one token

  /** Characters that begin neither a mark nor a string. */
  predicate IsPlain(c: char) {
    c != '"' && c != '/' && c != '*'
  }

  lemma PlainHasNoMark(s: string)
    requires s != "" && IsPlain(s[0])
    ensures Marks(s) == Marks(s[1..])
  {
  }

  predicate IsRun(k: Kind) {
    k == SymbolName || k == WhiteSpace || k == Number
  }

  /** Names, blanks and numbers hold no mark. */
  lemma {:induction false} RunHasNoMark(k: Kind, s: string, n: nat)
    requires n <= |s| && IsRun(k)
    ensures var r := Continue(k, s, n); Marks(s[n..]) == Marks(s[r.1..]) && MarkOf(r.0) == []
    decreases |s| - n
  {
    if n < |s| {
      var step := Next(k, s[..n + 1], s[n]);
      RunStep(k, s[..n + 1], s[n]);
      if !step.Back? {
        assert s[n..][1..] == s[n + 1..];
        PlainHasNoMark(s[n..]);
        if step.More? {
          RunHasNoMark(k, s, n + 1);
        }
      }
    }
  }

  lemma RunStep(k: Kind, value: string, c: char)
    requires IsRun(k)
    ensures var step := Next(k, value, c);
            && (step.Back? || IsPlain(c)) && MarkOf(step.kind) == []
            && (step.More? ==> step.kind == k) && (step.End? ==> step.kind == Text)
  {
  }

  lemma {:induction false} StringHasNoMark(s: string, n: nat)
    requires n <= |s|
    ensures var r := Continue(StringLiteral, s, n); AfterString(s[n..]) == s[r.1..] && r.0 == StringLiteral
    decreases |s| - n
  {
    if n < |s| {
      assert s[n..][1..] == s[n + 1..];
      if s[n] != '"' {
        StringHasNoMark(s, n + 1);
      }
    }
  }

  /** Kinds that wait for at most one more character. */
  predicate IsShort(k: Kind) {
    k == Subtract || k == Add || k == GreaterThan || k == LessThan || k == Assign || k == Newline
  }

  lemma ShortHasNoMark(k: Kind, s: string)
    requires s != "" && IsShort(k) && IsPlain(s[0])
    ensures var r := Continue(k, s, 1); Marks(s) == Marks(s[r.1..]) && MarkOf(r.0) == []
  {
    PlainHasNoMark(s);
    if |s| > 1 {
      assert s[1..][1..] == s[2..];
      if Next(k, s[..2], s[1]).End? {
        PlainHasNoMark(s[1..]);
      }
    }
  }

  /** A token carries exactly the marks of its characters. */
  ghost predicate CarriesMarks(s: string, r: (Kind, nat))
    requires r.1 <= |s|
  {
    Marks(s) == MarkOf(r.0) + Marks(s[r.1..])
  }

  lemma SlashMarks(s: string)
    requires s != "" && s[0] == '/'
    ensures CarriesMarks(s, First(s))
  {
  }

  lemma StarMarks(s: string)
    requires s != "" && s[0] == '*'
    ensures CarriesMarks(s, First(s))
  {
    assert First(s) == Continue(Multiply, s, 1);
    if |s| > 1 {
      if s[1] == '/' {
        assert First(s) == (BlockCommentEnd, 2);
      } else {
        assert First(s) == (Multiply, 1);
      }
    }
  }

  lemma StringMarks(s: string)
    requires s != "" && s[0] == '"'
    ensures CarriesMarks(s, First(s))
  {
    assert First(s) == Continue(StringLiteral, s, 1);
    StringHasNoMark(s, 1);
  }

  lemma TokenMarks(s: string)
    requires s != ""
    ensures CarriesMarks(s, First(s))
  {
    if s[0] == '/' {
      SlashMarks(s);
    } else if s[0] == '*' {
      StarMarks(s);
    } else if s[0] == '"' {
      StringMarks(s);
    } else {
      PlainTokenMarks(s, Start(s[0]));
    }
  }

  lemma PlainTokenMarks(s: string, step: Step)
    requires s != "" && IsPlain(s[0]) && step == Start(s[0])
    ensures CarriesMarks(s, First(s))
  {
    StartPlain(s[0]);
    PlainHasNoMark(s);
    if step.More? {
      assert First(s) == Continue(step.kind, s, 1);
      if IsRun(step.kind) {
        RunHasNoMark(step.kind, s, 1);
      } else {
        ShortHasNoMark(step.kind, s);
      }
    } else {
      assert First(s) == (step.kind, 1);
    }
  }

  lemma StartPlain(c: char)
    requires IsPlain(c)
    ensures var step := Start(c);
            && (step.More? ==> IsRun(step.kind) || IsShort(step.kind))
            && !step.Back? && MarkOf(step.kind) == []
  {
  }

  lemma {:induction false} TextMarks(s: string)
    ensures KindMarks(Tokens(s)) == Marks(s)
    decreases |s|
  {
    if s != "" {
      var (k, n) := First(s);
      TokenMarks(s);
      TextMarks(s[n..]);
      assert Tokens(s)[0] == Token(k, s[..n]) && Tokens(s)[1..] == Tokens(s[n..]);
    }
  }

  // ----------------------------------------------------- marks across the merge

  lemma {:induction false} KindMarksConcat(a: seq<Token>, b: seq<Token>)
    ensures KindMarks(a + b) == KindMarks(a) + KindMarks(b)
  {
    if a == [] {
      assert a + b == b;
    } else {
      KindMarksConcat(a[1..], b);
      var head := MarkOf(a[0].kind);
      assert KindMarks(a + b) == head + KindMarks(a[1..] + b) by {
        assert (a + b)[0] == a[0] && (a + b)[1..] == a[1..] + b;
      }
      AssociateMarks(head, KindMarks(a[1..]), KindMarks(b));
    }
  }

  lemma KindMarksOne(t: Token)
    ensures KindMarks([t]) == MarkOf(t.kind)
  {
  }

  /** A pending name has no mark. */
  predicate Unmarked(m: Names) {
    (m.state != Plain ==> MarkOf(m.temp.kind) == []) && (m.state == InFiller ==> KindMarks(m.reserve) == [])
  }

  lemma FlushMarks(m: Names, name: Token, t: Token)
    requires MarkOf(name.kind) == []
    ensures KindMarks(Flush(m, name, t).out) == KindMarks(m.out) + MarkOf(t.kind)
  {
    KindMarksConcat(m.out, [name, t]);
    KindMarksConcat([name], [t]);
    KindMarksOne(name);
    KindMarksOne(t);
    assert [name] + [t] == [name, t];
  }

  lemma FillerMarks(m: Names, t: Token)
    requires Unmarked(m) && m.state == InFiller
    ensures Unmarked(NameStep(m, t)) && KindMarks(NameStep(m, t).out) == KindMarks(m.out) + MarkOf(t.kind)
  {
    var n := NameStep(m, t);
    KindMarksOne(t);
    if n.state == InFiller {
      KindMarksConcat(m.reserve, [t]);
    } else if t.kind == Multiply && m.temp.value == "*fill" {
      var whole := Token(m.temp.kind, m.temp.value + t.value);
      KindMarksConcat(m.out, [whole]);
      KindMarksOne(whole);
    } else {
      KindMarksConcat(m.out + m.reserve, [t]);
      KindMarksConcat(m.out, m.reserve);
    }
  }

  /** Merging names lets every mark through. */
  lemma NameStepMarks(m: Names, t: Token)
    requires Unmarked(m)
    ensures Unmarked(NameStep(m, t)) && KindMarks(NameStep(m, t).out) == KindMarks(m.out) + MarkOf(t.kind)
  {
    var n := NameStep(m, t);
    if m.state == Plain {
      KindMarksOne(t);
      if n.state == Plain {
        KindMarksConcat(m.out, [t]);
      }
    } else if m.state == InFiller {
      FillerMarks(m, t);
    } else if n.state == Plain {
      FlushMarks(m, n.out[|m.out|], t);
    }
  }

  lemma {:induction false} MergeMarks(m: Names, input: seq<Token>)
    requires Unmarked(m)
    ensures KindMarks(MergeNames(m, input).out) == KindMarks(m.out) + KindMarks(input)
    decreases |input|
  {
    if input != [] {
      NameStepMarks(m, input[0]);
      MergeMarks(NameStep(m, input[0]), input[1..]);
      AssociateMarks(KindMarks(m.out), MarkOf(input[0].kind), KindMarks(input[1..]));
    }
  }

  lemma AssociateMarks(a: seq<Mark>, b: seq<Mark>, c: seq<Mark>)
    ensures a + b + c == a + (b + c)
  {
  }

  lemma {:induction false} StatusFollowsMarks(m: Comments, input: seq<Token>)
    ensures MergeComments(m, input).status == After(m.status, KindMarks(input))
    decreases |input|
  {
    if input != [] {
      StatusFollowsMarks(CommentStep(m, input[0]), input[1..]);
      AfterOne(m.status, input[0].kind, KindMarks(input[1..]));
    }
  }

  lemma AfterOne(status: Status, k: Kind, rest: seq<Mark>)
    ensures After(status, MarkOf(k) + rest) ==
              After(CommentStep(Comments([], status, ""), Token(k, "")).status, rest)
  {
    if MarkOf(k) == [] {
      assert MarkOf(k) + rest == rest;
    } else {
      assert (MarkOf(k) + rest)[1..] == rest;
    }
  }

  /** Both passes over tokens leave a comment open exactly when one scan over the characters does. */
  lemma CommentStatus(text: string)
    ensures Commented(text).status == After(Outside, Marks(text))
  {
    TextMarks(text);
    MergeMarks(NAMES_START, Tokens(text));
    assert KindMarks(NAMES_START.out) + KindMarks(Tokens(text)) == KindMarks(Tokens(text));
    StatusFollowsMarks(COMMENTS_START, Named(text).out);
  }

  // --------------------------------------------------------- texts with an end

  /** Kinds that a pending name may take in or begin with. */
  predicate IsNamePart(k: Kind) {
    k == Fullstop || k == Slash || k == SymbolName || k == Multiply || k == Number || k == Subtract
  }

  /** Any other kind ends a pending name. */
  lemma OthersEndNames(m: Names, t: Token)
    requires !IsNamePart(t.kind)
    ensures NameStep(m, t).state == Plain
  {
  }

  lemma {:induction false} RunEnds(k: Kind, s: string, n: nat)
    requires 0 < n <= |s| && IsRun(k) && s[n - 1] != '\n'
    ensures var r := Continue(k, s, n); r.1 > 0 && s[r.1 - 1] != '\n'
    decreases |s| - n
  {
    if n < |s| {
      var step := Next(k, s[..n + 1], s[n]);
      RunStepEnds(k, s[..n + 1], s[n]);
      if step.More? {
        RunEnds(k, s, n + 1);
      }
    }
  }

  lemma RunStepEnds(k: Kind, value: string, c: char)
    requires IsRun(k)
    ensures var step := Next(k, value, c); (step.Back? || c != '\n') && (step.More? ==> step.kind == k)
  {
  }

  /** A token that ends in a newline is no part of a name. */
  lemma NewlineEndsNames(s: string)
    requires s != "" && s[First(s).1 - 1] == '\n'
    ensures !IsNamePart(First(s).0)
  {
    var step := Start(s[0]);
    if step.More? {
      assert First(s) == Continue(step.kind, s, 1);
      StartKinds(s[0]);
      if IsRun(step.kind) {
        RunEnds(step.kind, s, 1);
      } else if step.kind == StringLiteral {
        StringHasNoMark(s, 1);
      } else if |s| > 1 {
        ShortKinds(step.kind, s[..2], s[1]);
      }
    }
  }

  lemma StartKinds(c: char)
    ensures var step := Start(c);
            && !step.Back?
            && (step.More? ==> IsRun(step.kind) || IsShort(step.kind) || step.kind in {SlashCandidate, Multiply, StringLiteral})
            && (c == '\n' ==> step == End(Newline))
            && (step.More? && step.kind == Newline ==> c == '\r')
  {
  }

  lemma ShortKinds(k: Kind, value: string, c: char)
    requires IsShort(k) || k == SlashCandidate || k == Multiply
    ensures var step := Next(k, value, c); !step.More? && (step.End? ==> !IsNamePart(step.kind))
  {
  }

  lemma MergeFirst(m: Names, s: string) returns (t: Token, n: nat)
    requires s != ""
    ensures 0 < n <= |s| && First(s) == (t.kind, n)
    ensures MergeNames(m, Tokens(s)) == MergeNames(NameStep(m, t), Tokens(s[n..]))
  {
    n := First(s).1;
    t := Token(First(s).0, s[..n]);
    assert Tokens(s) == [t] + Tokens(s[n..]);
    assert ([t] + Tokens(s[n..]))[1..] == Tokens(s[n..]);
  }

  /** After a text that ends in a newline no name is pending. */
  lemma {:induction false} NewlineLeavesNoName(m: Names, s: string)
    requires s != "" && s[|s| - 1] == '\n'
    ensures MergeNames(m, Tokens(s)).state == Plain
    decreases |s|
  {
    var t, n := MergeFirst(m, s);
    if n == |s| {
      NewlineEndsNames(s);
      OthersEndNames(m, t);
    } else {
      NewlineLeavesNoName(NameStep(m, t), s[n..]);
    }
  }

  /** A script that ends in a newline is given back by parsing and joining if and only if, reading its comment marks from
      left to right, no comment is open at the end. */
  lemma SurvivesIff(text: string)
    requires text != "" && text[|text| - 1] == '\n'
    ensures Join(Script(text)) == text <==> After(Outside, Marks(text)) == Outside
  {
    ScriptIsTextIff(text);
    NewlineLeavesNoName(NAMES_START, text);
    CommentStatus(text);
  }

  /** No mark opens a comment. */
  predicate OnlyCloses(marks: seq<Mark>) {
    forall i :: 0 <= i < |marks| ==> marks[i] == CloseMark
  }

  lemma {:induction false} ClosesChangeNothing(marks: seq<Mark>)
    requires OnlyCloses(marks)
    ensures After(Outside, marks) == Outside
  {
    if marks != [] {
      assert marks[0] == CloseMark;
      ClosesChangeNothing(marks[1..]);
    }
  }

  /** The two characters follow one another somewhere in the text. */
  predicate Has(s: string, a: char, b: char) {
    exists i :: 0 <= i < |s| - 1 && s[i] == a && s[i + 1] == b
  }

  lemma HasLater(s: string, n: nat, a: char, b: char)
    requires n <= |s| && Has(s[n..], a, b)
    ensures Has(s, a, b)
  {
  }

  lemma {:induction false} AfterStringIsSuffix(s: string) returns (n: nat)
    ensures n <= |s| && AfterString(s) == s[n..]
  {
    if s == "" {
      n := 0;
    } else if s[0] == '"' {
      n := 1;
    } else {
      var k := AfterStringIsSuffix(s[1..]);
      n := k + 1;
      assert s[1..][k..] == s[n..];
    }
  }

  lemma NotAtStart(s: string, b: char)
    requires !Has(s, '/', b)
    ensures !(['/', b] <= s)
  {
    if |s| >= 2 {
      assert !(s[0] == '/' && s[0 + 1] == b);
    }
  }

  lemma {:induction false} NoOpening(s: string)
    requires !Has(s, '/', '*') && !Has(s, '/', '/')
    ensures OnlyCloses(Marks(s))
    decreases |s|
  {
    if s != "" {
      var n: nat := 1;
      if s[0] == '"' {
        var k := AfterStringIsSuffix(s[1..]);
        n := k + 1;
        assert s[1..][k..] == s[n..];
      } else if "*/" <= s {
        n := 2;
      }
      if Has(s[n..], '/', '*') { HasLater(s, n, '/', '*'); }
      if Has(s[n..], '/', '/') { HasLater(s, n, '/', '/'); }
      NoOpening(s[n..]);
      NotAtStart(s, '*');
      NotAtStart(s, '/');
    }
  }

  /** In particular every script that ends in a newline and has no comment is given back. */
  lemma NoCommentSurvives(text: string)
    requires text != "" && text[|text| - 1] == '\n' && !Has(text, '/', '*') && !Has(text, '/', '/')
    ensures Join(Script(text)) == text
  {
    NoOpening(text);
    ClosesChangeNothing(Marks(text));
    SurvivesIff(text);
  }

  /** A line comment is never ended, so a script that has one outside a block comment loses everything from it on. */
  lemma LineCommentIsLost()
    ensures Join(Script("//\na\n")) != "//\na\n"
  {
    var text := "//\na\n";
    assert text[2..] == "\na\n" && text[2..][1..] == "a\n" && text[2..][1..][1..] == "\n" && text[2..][1..][1..][1..] == "";
    assert "//" <= text;
    assert text[1] != "/*"[1];
    assert Marks(text) == [LineMark] + Marks(text[2..]);
    AfterLine([LineMark] + Marks(text[2..]));
    SurvivesIff(text);
  }

  lemma {:induction false} StaysInLine(marks: seq<Mark>)
    ensures After(InLine, marks) == InLine
  {
    if marks != [] {
      StaysInLine(marks[1..]);
    }
  }

  lemma AfterLine(marks: seq<Mark>)
    requires marks != [] && marks[0] == LineMark
    ensures After(Outside, marks) == InLine
  {
    StaysInLine(marks[1..]);
  }

  /** A quote inside a block comment begins a string that hides the comment's end. */
  lemma QuotedCommentIsLost()
    ensures Join(Script("/*\"*/\n")) != "/*\"*/\n"
  {
    var text := "/*\"*/\n";
    var rest := text[2..];
    assert rest == "\"*/\n" && rest[1..] == "*/\n" && rest[1..][1..] == "/\n" && rest[1..][1..][1..] == "\n";
    assert AfterString("\n") == "" && AfterString("/\n") == "" && AfterString("*/\n") == "";
    assert Marks(rest) == Marks("") == [];
    assert "/*" <= text;
    assert Marks(text) == [OpenMark] + Marks(rest) == [OpenMark];
    assert After(Outside, [OpenMark]) == After(InBlock, []);
    SurvivesIff(text);
  }
}

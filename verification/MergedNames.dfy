/** Which tokens the mergers make of a run of tokens (ld/genlink-cmsis.py). */
module MergedNames {
  import opened Lexer
  import opened Merger

  lemma MergeOne(m: Names, input: seq<Token>)
    requires input != []
    ensures MergeNames(m, input) == MergeNames(NameStep(m, input[0]), input[1..])
  {
  }

  lemma {:induction false} MergeConcat(m: Names, a: seq<Token>, b: seq<Token>)
    ensures MergeNames(m, a + b) == MergeNames(MergeNames(m, a), b)
    decreases |a|
  {
    if a == [] {
      assert a + b == b;
    } else {
      assert (a + b)[1..] == a[1..] + b;
      MergeOne(m, a + b);
      MergeOne(m, a);
      MergeConcat(NameStep(m, a[0]), a[1..], b);
    }
  }

  // --------------------------------------------------------------- section names

  /** What may follow the first dot of a section name: names, numbers, stars and dots, but no dot after a dot. */
  predicate SectionParts(dotBefore: bool, parts: seq<Token>)
    decreases |parts|
  {
    parts == [] ||
    (if parts[0].kind == Fullstop then !dotBefore && parts[0].value == "." && SectionParts(true, parts[1..])
     else parts[0].kind in {SymbolName, Number, Multiply} && parts[0].value != "" && parts[0].value[|parts[0].value| - 1] != '.'
          && SectionParts(false, parts[1..]))
  }

  lemma {:induction false} SectionGrows(m: Names, parts: seq<Token>)
    requires m.state == InSection && m.temp.kind == SectionName && m.temp.value != ""
    requires SectionParts(m.temp.value[|m.temp.value| - 1] == '.', parts)
    ensures var r := MergeNames(m, parts);
            r == m.(temp := Token(SectionName, m.temp.value + Join(parts)))
    decreases |parts|
  {
    if parts == [] {
      assert m.temp.value + "" == m.temp.value;
    } else {
      var t := parts[0];
      var n := NameStep(m, t);
      assert n == m.(temp := Token(SectionName, m.temp.value + t.value));
      MergeOne(m, parts);
      SectionGrows(n, parts[1..]);
      Associate(m.temp.value, t.value, Join(parts[1..]));
    }
  }

  predicate EndsSection(t: Token) {
    t.kind !in {Fullstop, SymbolName, Number, Multiply, Slash}
  }

  /** A dot, names and numbers up to a token of another kind become one section name. */
  lemma SectionIsMerged(m: Names, parts: seq<Token>, end: Token)
    requires m.state == Plain && parts != [] && SectionParts(true, parts) && EndsSection(end)
    ensures var r := MergeNames(m, [DOT] + parts + [end]);
            r.state == Plain && r.out == m.out + [Token(SectionName, "." + Join(parts)), end]
  {
    var begun := NameStep(m, DOT);
    assert begun == m.(state := InSection, temp := Token(SectionName, "."));
    SectionGrows(begun, parts);
    NoPartIsEmpty(parts);
    MergeConcat(m, [DOT] + parts, [end]);
    MergeConcat(m, [DOT], parts);
    MergeOne(m, [DOT]);
    MergeOne(MergeNames(begun, parts), [end]);
  }

  lemma NoPartIsEmpty(parts: seq<Token>)
    requires parts != [] && SectionParts(true, parts)
    ensures Join(parts) != "" && "." + Join(parts) != "."
  {
    assert |"." + Join(parts)| == 1 + |Join(parts)|;
  }

  // ------------------------------------------------------------------ file names

  predicate IsFilePart(t: Token) {
    t.kind in {Fullstop, Slash, SymbolName, Number, Subtract}
  }

  predicate FileHead(head: seq<Token>) {
    || (|head| == 1 && head[0].kind == Slash)
    || (|head| == 2 && head[0].kind == SymbolName && head[1].kind in {Fullstop, Slash, Subtract})
  }

  lemma {:induction false} FileGrows(m: Names, parts: seq<Token>)
    requires m.state == InFile && forall i :: 0 <= i < |parts| ==> IsFilePart(parts[i])
    ensures MergeNames(m, parts) == m.(temp := Token(m.temp.kind, m.temp.value + Join(parts)))
    decreases |parts|
  {
    if parts == [] {
      assert m.temp.value + "" == m.temp.value;
    } else {
      var n := NameStep(m, parts[0]);
      assert n == m.(temp := Token(m.temp.kind, m.temp.value + parts[0].value));
      MergeOne(m, parts);
      FileGrows(n, parts[1..]);
      Associate(m.temp.value, parts[0].value, Join(parts[1..]));
    }
  }

  /** A slash, or a name followed by a dot, a slash or a dash, begins a file name; /DISCARD/ is a section name. */
  lemma FileIsMerged(m: Names, head: seq<Token>, parts: seq<Token>, end: Token)
    requires m.state == Plain && FileHead(head) && !IsFilePart(end) && forall i :: 0 <= i < |parts| ==> IsFilePart(parts[i])
    ensures var r, name := MergeNames(m, head + parts + [end]), Join(head) + Join(parts);
            && r.state == Plain
            && r.out == m.out + [Token(if name == "/DISCARD/" then SectionName else FileName, name), end]
  {
    HeadBegins(m, head);
    var begun := MergeNames(m, head);
    FileGrows(begun, parts);
    MergeConcat(m, head + parts, [end]);
    MergeConcat(m, head, parts);
    MergeOne(MergeNames(begun, parts), [end]);
  }

  lemma HeadBegins(m: Names, head: seq<Token>)
    requires m.state == Plain && FileHead(head)
    ensures var r := MergeNames(m, head); r == m.(state := InFile, temp := Token(FileName, Join(head)))
  {
    MergeOne(m, head);
    if |head| == 1 {
      assert head == [head[0]];
      JoinOne(head[0]);
    } else {
      assert head == [head[0], head[1]] && head[1..] == [head[1]];
      JoinTwo(head[0], head[1]);
      MergeOne(NameStep(m, head[0]), head[1..]);
    }
  }

  // ------------------------------------------------------------- runs of names

  const DOT: Token := Token(Fullstop, ".")
  const STAR: Token := Token(Multiply, "*")
  const FILL: Token := Token(SymbolName, "fill")

  /** A name together with the token that ends it; a fill marker, whole or broken off; or a token that begins no name. */
  datatype Phrase =
    | Section(parts: seq<Token>, end: Token)
    | LoneDot(end: Token)
    | File(head: seq<Token>, parts: seq<Token>, end: Token)
    | Word(name: Token, end: Token)
    | FillMarker
    | HalfMarker(end: Token)
    | Starred(end: Token)
    | Other(t: Token)

  predicate Complete(p: Phrase) {
    match p
    case Section(parts, end) => parts != [] && SectionParts(true, parts) && EndsSection(end)
    case LoneDot(end) => EndsSection(end)
    case File(head, parts, end) => FileHead(head) && (forall i :: 0 <= i < |parts| ==> IsFilePart(parts[i])) && !IsFilePart(end)
    case Word(name, end) => name.kind == SymbolName && end.kind !in {Fullstop, Slash, Subtract}
    case FillMarker => true
    case HalfMarker(end) => end.kind != Multiply
    case Starred(end) => end != FILL
    case Other(t) => t.kind !in {Fullstop, Slash, SymbolName, Multiply}
  }

  function Tokens(p: Phrase): seq<Token> {
    match p
    case Section(parts, end) => [DOT] + parts + [end]
    case LoneDot(end) => [DOT, end]
    case File(head, parts, end) => head + parts + [end]
    case Word(name, end) => [name, end]
    case FillMarker => [STAR, FILL, STAR]
    case HalfMarker(end) => [STAR, FILL, end]
    case Starred(end) => [STAR, end]
    case Other(t) => [t]
  }

  /** Only section names, file names and whole fill markers become one token; /DISCARD/ is a section name. */
  function Merged(p: Phrase): seq<Token> {
    match p
    case Section(parts, end) => [Token(SectionName, "." + Join(parts)), end]
    case File(head, parts, end) =>
      var name := Join(head) + Join(parts);
      [Token(if name == "/DISCARD/" then SectionName else FileName, name), end]
    case FillMarker => [Token(Filler, "*fill*")]
    case _ => Tokens(p)
  }

  lemma TwoSteps(m: Names, a: Token, b: Token)
    ensures MergeNames(m, [a, b]) == NameStep(NameStep(m, a), b)
  {
    assert [a, b][1..] == [b];
    MergeOne(m, [a, b]);
    MergeOne(NameStep(m, a), [b]);
  }

  lemma PairStays(m: Names, t: Token, end: Token)
    requires m.state == Plain
    requires (t == DOT && EndsSection(end)) || (t.kind == SymbolName && end.kind !in {Fullstop, Slash, Subtract}) || (t == STAR && end != FILL)
    ensures var r := MergeNames(m, [t, end]); r.state == Plain && r.out == m.out + [t, end]
  {
    TwoSteps(m, t, end);
  }

  lemma MarkerIsMerged(m: Names, end: Token)
    requires m.state == Plain
    ensures var r := MergeNames(m, [STAR, FILL, end]);
            r.state == Plain && r.out == m.out + if end.kind == Multiply then [Token(Filler, "*fill" + end.value)] else [STAR, FILL, end]
  {
    assert [STAR, FILL, end][1..] == [FILL, end];
    MergeOne(m, [STAR, FILL, end]);
    TwoSteps(NameStep(m, STAR), FILL, end);
    assert "*" + "fill" == "*fill";
  }

  lemma PhraseIsMerged(m: Names, p: Phrase)
    requires m.state == Plain && Complete(p)
    ensures var r := MergeNames(m, Tokens(p)); r.state == Plain && r.out == m.out + Merged(p)
  {
    match p {
      case Section(parts, end) => SectionIsMerged(m, parts, end);
      case LoneDot(end) => PairStays(m, DOT, end);
      case File(head, parts, end) => FileIsMerged(m, head, parts, end);
      case Word(name, end) => PairStays(m, name, end);
      case FillMarker =>
        MarkerIsMerged(m, STAR);
        assert "*fill" + "*" == "*fill*";
      case HalfMarker(end) => MarkerIsMerged(m, end);
      case Starred(end) => PairStays(m, STAR, end);
      case Other(t) => MergeOne(m, [t]);
    }
  }

  function AllTokens(ps: seq<Phrase>): seq<Token> {
    if ps == [] then [] else Tokens(ps[0]) + AllTokens(ps[1..])
  }

  function AllMerged(ps: seq<Phrase>): seq<Token> {
    if ps == [] then [] else Merged(ps[0]) + AllMerged(ps[1..])
  }

  lemma Associated(a: seq<Token>, b: seq<Token>, c: seq<Token>)
    ensures a + b + c == a + (b + c)
  {
  }

  /** Every run of complete names, markers and other tokens, in any order and number, is merged phrase by phrase: what was
      merged before is kept, and nothing is carried over from one phrase to the next. */
  lemma {:induction false} PhrasesAreMerged(m: Names, ps: seq<Phrase>)
    requires m.state == Plain && forall i :: 0 <= i < |ps| ==> Complete(ps[i])
    ensures var r := MergeNames(m, AllTokens(ps)); r.state == Plain && r.out == m.out + AllMerged(ps)
    decreases |ps|
  {
    if ps == [] {
      assert m.out + [] == m.out;
    } else {
      PhraseIsMerged(m, ps[0]);
      var n := MergeNames(m, Tokens(ps[0]));
      PhrasesAreMerged(n, ps[1..]);
      MergeConcat(m, Tokens(ps[0]), AllTokens(ps[1..]));
      Associated(m.out, Merged(ps[0]), AllMerged(ps[1..]));
    }
  }

  // -------------------------------------------------------------------- comments

  lemma {:induction false} CommentGrows(m: Comments, body: seq<Token>)
    requires m.status == InBlock && forall i :: 0 <= i < |body| ==> body[i].kind != BlockCommentEnd
    ensures MergeComments(m, body) == m.(temp := m.temp + Join(body))
    decreases |body|
  {
    if body == [] {
      assert m.temp + "" == m.temp;
    } else {
      CommentGrows(CommentStep(m, body[0]), body[1..]);
      Associate(m.temp, body[0].value, Join(body[1..]));
    }
  }

  lemma {:induction false} CommentsConcat(m: Comments, a: seq<Token>, b: seq<Token>)
    ensures MergeComments(m, a + b) == MergeComments(MergeComments(m, a), b)
    decreases |a|
  {
    if a == [] {
      assert a + b == b;
    } else {
      assert (a + b)[0] == a[0] && (a + b)[1..] == a[1..] + b;
      CommentsConcat(CommentStep(m, a[0]), a[1..], b);
    }
  }

  /** A block comment becomes one comment token, whatever tokens are inside. */
  lemma BlockCommentIsMerged(m: Comments, open: Token, body: seq<Token>, close: Token)
    requires m.status == Outside && open.kind == BlockCommentStart && close.kind == BlockCommentEnd
    requires forall i :: 0 <= i < |body| ==> body[i].kind != BlockCommentEnd
    ensures var r := MergeComments(m, [open] + body + [close]);
            r.status == Outside && r.out == m.out + [Token(Comment, open.value + Join(body) + close.value)]
  {
    var begun := CommentStep(m, open);
    assert MergeComments(m, [open]) == begun;
    CommentGrows(begun, body);
    CommentsConcat(m, [open] + body, [close]);
    CommentsConcat(m, [open], body);
    assert MergeComments(MergeComments(begun, body), [close]) == CommentStep(MergeComments(begun, body), close);
  }
}

/**
 The part of the LogsQL filter language the query builder relies on: words, quoted phrases,
 parentheses, NOT, AND (written or implied by juxtaposition) and OR, NOT binding tighter than
 AND and AND tighter than OR.  A query is a string; its meaning is the truth value it gives to
 every set of atoms that hold of a record.  A string that may be something else in LogsQL is
 outside this fragment and has no meaning here.
 */
module LogsQL {
  import opened Prelude

  datatype Token = LeftPar | RightPar | Word(text: string) | Phrase(text: string)

  datatype Expr = All | Leaf(atom: Token) | Not(e: Expr) | And(l: Expr, r: Expr) | Or(l: Expr, r: Expr)

  // ---------------------------------------------------------------- tokens

  /** White space between tokens. */
  predicate IsSpace(c: char) {
    c == ' ' || 9 <= c as int <= 13
  }

  /** The ASCII separators that Python strips as white space and LogsQL does not know. */
  predicate IsStrange(c: char) {
    28 <= c as int <= 31
  }

  /** Where a word ends. */
  predicate IsDelimiter(c: char) {
    IsSpace(c) || IsStrange(c) || c == '(' || c == ')'
  }

  predicate IsTokenChar(c: char) {
    'a' <= c <= 'z' || 'A' <= c <= 'Z' || '0' <= c <= '9' || c == '_'
  }

  function UpperChar(c: char): char {
    if 'a' <= c <= 'z' then c - 'a' + 'A' else c
  }

  function LowerChar(c: char): char {
    if 'A' <= c <= 'Z' then c - 'A' + 'a' else c
  }

  function Upper(s: string): (u: string)
    ensures |u| == |s|
    ensures forall i :: 0 <= i < |s| ==> u[i] == UpperChar(s[i])
    ensures forall i :: 0 <= i < |s| ==>
      if 97 <= s[i] as int <= 122 then u[i] as int == s[i] as int - 32 else u[i] == s[i]
  {
    seq(|s|, i requires 0 <= i < |s| => UpperChar(s[i]))
  }

  function Lower(s: string): (u: string)
    ensures |u| == |s|
    ensures forall i :: 0 <= i < |s| ==> u[i] == LowerChar(s[i])
    ensures forall i :: 0 <= i < |s| ==>
      if 65 <= s[i] as int <= 90 then u[i] as int == s[i] as int + 32 else u[i] == s[i]
  {
    seq(|s|, i requires 0 <= i < |s| => LowerChar(s[i]))
  }

  predicate IsKeywordText(w: string) {
    Upper(w) == "AND" || Upper(w) == "OR" || Upper(w) == "NOT"
  }

  predicate IsNameChar(c: char) {
    IsTokenChar(c) || c == '-' || c == '.' || c == '/'
  }

  /** Letters, digits and `_`, glued by `-`, `.` and `/`, and no keyword. */
  predicate IsName(w: string) {
    && w != "" && IsTokenChar(w[0]) && !IsKeywordText(w)
    && forall i :: 0 <= i < |w| ==> IsNameChar(w[i])
  }

  /** What may follow `field:`: a name, a name's beginning and `*`, or `*` for any value. */
  predicate IsValue(v: string) {
    IsName(v) || v == "*" || (v != "" && Last(v) == '*' && IsName(Front(v)))
  }

  /** Position of the first colon, or the length when there is none. */
  function Colon(w: string): (n: nat)
    ensures n <= |w|
    ensures n < |w| ==> w[n] == ':'
    ensures forall i :: 0 <= i < n ==> w[i] != ':'
  {
    if w == [] || w[0] == ':' then 0 else
    var n := Colon(w[1..]);
    assert forall i :: 1 <= i < n + 1 ==> w[i] == w[1..][i - 1];
    n + 1
  }

  /** A keyword, a value, or a value of a named field.  Any other run of characters is outside
      this fragment: in LogsQL it may be a comment, a pipe, a negation, a comparison, another
      kind of quote.  So are the fields whose values have a syntax of their own. */
  predicate IsWord(w: string) {
    IsKeywordText(w) || IsValue(w) || IsFieldValue(w)
  }

  predicate IsFieldValue(w: string) {
    var n := Colon(w);
    n < |w| && IsField(w[..n]) && IsValue(w[n + 1..])
  }

  predicate IsField(f: string) {
    IsName(f) && f != "_time" && f != "_stream" && f != "_stream_id"
  }

  lemma ColonOf(field: string, value: string)
    requires ':' !in field
    ensures Colon(field + ":" + value) == |field|
  {
    var w := field + ":" + value;
    assert w[|field|] == ':';
    assert forall i :: 0 <= i < |field| ==> w[i] == field[i];
  }

  function WordLength(s: string): (n: nat)
    ensures n <= |s|
    ensures n == |s| || IsDelimiter(s[n])
    ensures forall i :: 0 <= i < n ==> !IsDelimiter(s[i])
  {
    if s == [] || IsDelimiter(s[0]) then 0 else
    var n := 1 + WordLength(s[1..]);
    assert forall i :: 1 <= i < n ==> s[i] == s[1..][i - 1];
    n
  }

  /** Length of the quoted text at the start of `s`, up to its closing quote; only a quote and a
      backslash can be escaped. */
  function QuoteLength(s: string): (n: Option<nat>)
    ensures n.Some? ==> n.value < |s| && s[n.value] == '"'
  {
    if s == [] || s[0] as int < 32 then None
    else if s[0] == '"' then Some(0)
    else
      var skip := if s[0] == '\\' then 2 else 1;
      if |s| < skip || (skip == 2 && s[1] != '"' && s[1] != '\\') then None else
      match QuoteLength(s[skip..])
      case None => None
      case Some(n) => Some(n + skip)
  }

  function Cons(t: Token, ts: Option<seq<Token>>): Option<seq<Token>> {
    if ts.Some? then Some([t] + ts.value) else None
  }

  /** A text that may follow a word or a phrase without merging into it. */
  predicate Separates(b: string) {
    b == [] || IsDelimiter(b[0])
  }

  /** Reading from the front of a query: stuck when a quote is never closed or a word is outside
      the fragment; else one token, or none for a space, is taken off. */
  datatype Step = Stuck | Took(token: Option<Token>, rest: string)

  function First(s: string): (step: Step)
    requires s != []
    ensures step.Took? ==> |step.rest| < |s|
  {
    if IsSpace(s[0]) then Took(None, s[1..])
    else if s[0] == '(' then Took(Some(LeftPar), s[1..])
    else if s[0] == ')' then Took(Some(RightPar), s[1..])
    else if s[0] == '"' then
      match QuoteLength(s[1..])
      case None => Stuck
      case Some(n) => if Separates(s[n + 2..]) then Took(Some(Phrase(s[1..n + 1])), s[n + 2..]) else Stuck
    else
      var n := WordLength(s);
      if n > 0 && IsWord(s[..n]) then Took(Some(Word(s[..n])), s[n..]) else Stuck
  }

  function ConsOpt(t: Option<Token>, ts: Option<seq<Token>>): Option<seq<Token>> {
    if t.None? then ts else Cons(t.value, ts)
  }

  /** The tokens of a query; None when it is outside the fragment. */
  function Lex(s: string): Option<seq<Token>>
    decreases |s|
  {
    if s == [] then Some([])
    else
      match First(s)
      case Stuck => None
      case Took(t, rest) => ConsOpt(t, Lex(rest))
  }

  // ---------------------------------------------------------------- syntax

  predicate IsKeyword(t: Token, keyword: string) {
    t.Word? && Upper(t.text) == keyword
  }

  type Parsed = Option<(Expr, seq<Token>)>

  /** or := and (OR and)* */
  function ParseOr(ts: seq<Token>): (p: Parsed)
    ensures p.Some? ==> |p.value.1| < |ts|
    decreases |ts|, 3
  {
    match ParseAnd(ts)
    case None => None
    case Some((l, rest)) =>
      if rest != [] && IsKeyword(rest[0], "OR") then
        match ParseOr(rest[1..])
        case None => None
        case Some((r, rest')) => Some((Or(l, r), rest'))
      else Some((l, rest))
  }

  /** The rest of the tokens does not continue a conjunction. */
  predicate EndsAnd(rest: seq<Token>) {
    rest == [] || rest[0].RightPar? || IsKeyword(rest[0], "OR")
  }

  /** and := not (AND? not)* */
  function ParseAnd(ts: seq<Token>): (p: Parsed)
    ensures p.Some? ==> |p.value.1| < |ts|
    decreases |ts|, 2
  {
    match ParseNot(ts)
    case None => None
    case Some((l, rest)) =>
      if EndsAnd(rest) then Some((l, rest))
      else
        match ParseAnd(if IsKeyword(rest[0], "AND") then rest[1..] else rest)
        case None => None
        case Some((r, rest')) => Some((And(l, r), rest'))
  }

  /** not := NOT not | ( or ) | phrase | word; a word right before a parenthesis would be the name
      of a function, which this fragment leaves out */
  function ParseNot(ts: seq<Token>): (p: Parsed)
    ensures p.Some? ==> |p.value.1| < |ts|
    decreases |ts|, 1
  {
    if ts == [] then None
    else
      match ts[0]
      case RightPar => None
      case LeftPar =>
        (match ParseOr(ts[1..])
         case None => None
         case Some((e, rest)) => if rest != [] && rest[0].RightPar? then Some((e, rest[1..])) else None)
      case Phrase(_) => Some((Leaf(ts[0]), ts[1..]))
      case Word(w) =>
        if IsKeyword(ts[0], "NOT") then
          match ParseNot(ts[1..])
          case None => None
          case Some((e, rest)) => Some((Not(e), rest))
        else if IsKeyword(ts[0], "AND") || IsKeyword(ts[0], "OR") then None
        else if |ts| > 1 && ts[1].LeftPar? then None
        else Some((if w == "*" then All else Leaf(ts[0]), ts[1..]))
  }

  /** The syntax tree of a whole list of tokens. */
  function ParseAll(ts: seq<Token>): Option<Expr> {
    match ParseOr(ts)
    case None => None
    case Some((e, rest)) => if rest == [] then Some(e) else None
  }

  /** The syntax tree of a whole query. */
  function Parse(s: string): Option<Expr> {
    if Lex(s).None? then None else ParseAll(Lex(s).value)
  }

  predicate WellFormed(s: string) {
    Parse(s).Some?
  }

  // ---------------------------------------------------------------- meaning

  ghost predicate Eval(e: Expr, facts: iset<Token>) {
    match e
    case All => true
    case Leaf(t) => t in facts
    case Not(e) => !Eval(e, facts)
    case And(l, r) => Eval(l, facts) && Eval(r, facts)
    case Or(l, r) => Eval(l, facts) || Eval(r, facts)
  }

  /** What a query says of a record of which exactly the atoms in `facts` hold. */
  ghost function Meaning(s: string, facts: iset<Token>): Option<bool> {
    match Parse(s)
    case None => None
    case Some(e) => Some(Eval(e, facts))
  }

  // ---------------------------------------------------------------- properties of the lexer

  function Plus(a: Option<seq<Token>>, b: Option<seq<Token>>): Option<seq<Token>> {
    if a.Some? && b.Some? then Some(a.value + b.value) else None
  }

  lemma {:induction false} WordLengthAppend(a: string, b: string)
    requires Separates(b)
    ensures WordLength(a + b) == WordLength(a)
  {
    if a == [] {
      assert a + b == b;
    } else {
      assert (a + b)[1..] == a[1..] + b;
      WordLengthAppend(a[1..], b);
    }
  }

  lemma {:induction false} QuoteLengthAppend(a: string, b: string)
    requires QuoteLength(a).Some?
    ensures QuoteLength(a + b) == QuoteLength(a)
  {
    if a[0] != '"' {
      var skip := if a[0] == '\\' then 2 else 1;
      assert (a + b)[skip..] == a[skip..] + b;
      QuoteLengthAppend(a[skip..], b);
    }
  }

  lemma {:induction false} QuoteLengthOpen(a: string, c: char)
    requires QuoteLength(a).None? && c != '"'
    ensures QuoteLength(a + [c]).None?
    decreases |a|
  {
    var skip := if a != "" && a[0] == '\\' then 2 else 1;
    if |a| < skip {
      assert |a + [c]| == |a| + 1;
      if |a + [c]| >= skip { assert (a + [c])[skip..] == []; }
    } else {
      assert (a + [c])[skip..] == a[skip..] + [c];
      if QuoteLength(a[skip..]).None? { QuoteLengthOpen(a[skip..], c); }
    }
  }

  lemma ConsPlus(t: Option<Token>, a: Option<seq<Token>>, b: Option<seq<Token>>)
    ensures ConsOpt(t, Plus(a, b)) == Plus(ConsOpt(t, a), b)
  {
    if t.Some? && a.Some? && b.Some? {
      assert [t.value] + (a.value + b.value) == [t.value] + a.value + b.value;
    }
  }

  lemma QuoteEnds(a: string, b: string, n: nat)
    requires a != [] && a[0] == '"' && n + 2 <= |a|
    ensures (a + b)[1..] == a[1..] + b
    ensures (a + b)[n + 2..] == a[n + 2..] + b
    ensures (a + b)[1..n + 1] == a[1..n + 1]
  {
  }

  lemma FirstQuoteAppend(a: string, b: string)
    requires a != [] && a[0] == '"' && First(a).Took? && Separates(b)
    ensures First(a + b) == Took(First(a).token, First(a).rest + b)
  {
    var n := QuoteLength(a[1..]).value;
    QuoteEnds(a, b, n);
    QuoteLengthAppend(a[1..], b);
    assert Separates(a[n + 2..] + b);
  }

  lemma FirstWordAppend(a: string, b: string)
    requires a != [] && !IsDelimiter(a[0]) && a[0] != '"' && Separates(b)
    ensures First(a).Stuck? ==> First(a + b).Stuck?
    ensures First(a).Took? ==> First(a + b) == Took(First(a).token, First(a).rest + b)
  {
    var n := WordLength(a);
    WordLengthAppend(a, b);
    assert (a + b)[n..] == a[n..] + b;
    assert (a + b)[..n] == a[..n];
  }

  lemma FirstAppend(a: string, b: string)
    requires a != [] && First(a).Took? && Separates(b)
    ensures First(a + b) == Took(First(a).token, First(a).rest + b)
  {
    if a[0] == '"' {
      FirstQuoteAppend(a, b);
    } else if !IsDelimiter(a[0]) {
      FirstWordAppend(a, b);
    } else {
      assert (a + b)[1..] == a[1..] + b;
    }
  }

  lemma FirstQuoteStuck(a: string, c: char)
    requires a != [] && a[0] == '"' && First(a).Stuck? && IsDelimiter(c)
    ensures First(a + [c]).Stuck?
  {
    assert (a + [c])[1..] == a[1..] + [c];
    if QuoteLength(a[1..]).None? {
      QuoteLengthOpen(a[1..], c);
    } else {
      var n := QuoteLength(a[1..]).value;
      QuoteLengthAppend(a[1..], [c]);
      assert (a + [c])[n + 2..] == a[n + 2..] + [c];
    }
  }

  lemma FirstStuck(a: string, c: char)
    requires a != [] && First(a).Stuck? && IsDelimiter(c)
    ensures First(a + [c]).Stuck?
  {
    if a[0] == '"' {
      FirstQuoteStuck(a, c);
    } else if !IsDelimiter(a[0]) {
      FirstWordAppend(a, [c]);
    }
  }

  /** Tokens of a concatenation are the tokens of its parts, when the parts cannot merge. */
  lemma {:induction false} LexAppend(a: string, b: string)
    requires Lex(a).Some? && Separates(b)
    ensures Lex(a + b) == Plus(Lex(a), Lex(b))
    decreases |a|
  {
    if a == [] {
      assert a + b == b;
      if Lex(b).Some? { assert [] + Lex(b).value == Lex(b).value; }
    } else {
      FirstAppend(a, b);
      var step := First(a);
      LexAppend(step.rest, b);
      ConsPlus(step.token, Lex(step.rest), Lex(b));
    }
  }

  /** A text outside the fragment stays outside when a delimiter is appended. */
  lemma {:induction false} LexStuck(a: string, c: char)
    requires Lex(a).None? && IsDelimiter(c)
    ensures Lex(a + [c]).None?
    decreases |a|
  {
    if First(a).Took? {
      FirstAppend(a, [c]);
      LexStuck(First(a).rest, c);
    } else {
      FirstStuck(a, c);
    }
  }

  predicate IsStripped(c: char) {
    IsSpace(c) || IsStrange(c)
  }

  /** Python's str.strip. */
  function Strip(s: string): string {
    if s != [] && IsStripped(s[0]) then Strip(s[1..])
    else if s != [] && IsStripped(s[|s| - 1]) then Strip(s[..|s| - 1])
    else s
  }

  /** Python's white space in ASCII. */
  predicate IsWhite(c: char) {
    9 <= c as int <= 13 || 28 <= c as int <= 32
  }

  /** Exactly the white space at the two ends is taken off. */
  lemma {:induction false} StripTakesEnds(s: string) returns (a: string, b: string)
    ensures s == a + Strip(s) + b
    ensures forall c :: c in a || c in b ==> IsWhite(c)
    ensures Strip(s) != "" ==> !IsWhite(Strip(s)[0]) && !IsWhite(Last(Strip(s)))
  {
    if s != [] && IsStripped(s[0]) {
      var a0, b0 := StripTakesEnds(s[1..]);
      a, b := [s[0]] + a0, b0;
      Associate([s[0]], a0 + Strip(s), b0);
      Associate([s[0]], a0, Strip(s));
      assert s == [s[0]] + s[1..];
    } else if s != [] && IsStripped(s[|s| - 1]) {
      var a0, b0 := StripTakesEnds(s[..|s| - 1]);
      a, b := a0, b0 + [s[|s| - 1]];
      Associate(a0 + Strip(s), b0, [s[|s| - 1]]);
      assert s == s[..|s| - 1] + [s[|s| - 1]];
    } else {
      a, b := "", "";
    }
  }

  lemma LexTrailing(a: string, c: char)
    requires IsStripped(c) && Lex(a + [c]).Some?
    ensures Lex(a) == Lex(a + [c])
  {
    if Lex(a).None? {
      LexStuck(a, c);
    } else {
      LexAppend(a, [c]);
      assert [c][1..] == [];
      assert Lex([]) == Some([]);
      assert Lex(a).value + [] == Lex(a).value;
    }
  }

  /** Stripping a text changes none of its tokens. */
  lemma {:induction false} LexStrip(s: string)
    requires Lex(s).Some?
    ensures Lex(Strip(s)) == Lex(s)
  {
    if s != [] && IsStripped(s[0]) {
      assert IsSpace(s[0]);
      LexStrip(s[1..]);
    } else if s != [] && IsStripped(s[|s| - 1]) {
      assert s[..|s| - 1] + [s[|s| - 1]] == s;
      LexTrailing(s[..|s| - 1], s[|s| - 1]);
      LexStrip(s[..|s| - 1]);
    }
  }

  lemma {:induction false} WordLengthWhole(w: string)
    requires forall i :: 0 <= i < |w| ==> !IsDelimiter(w[i])
    ensures WordLength(w) == |w|
  {
    if w != [] { WordLengthWhole(w[1..]); }
  }

  lemma KeywordChars(w: string)
    requires IsKeywordText(w)
    ensures w != "" && forall i :: 0 <= i < |w| ==> IsNameChar(w[i])
  {
    assert forall i :: 0 <= i < |w| ==> Upper(w)[i] == UpperChar(w[i]);
  }

  lemma ValueChars(v: string)
    requires IsValue(v)
    ensures v != "" && forall i :: 0 <= i < |v| ==> IsNameChar(v[i]) || v[i] == '*'
  {
    if !IsName(v) && v != "*" {
      assert forall i :: 0 <= i < |v| - 1 ==> v[i] == Front(v)[i];
    }
  }

  predicate IsWordChar(c: char) {
    IsNameChar(c) || c == '*' || c == ':'
  }

  lemma FieldValueChars(w: string)
    requires IsFieldValue(w)
    ensures w != "" && forall i :: 0 <= i < |w| ==> IsWordChar(w[i])
  {
    var n := Colon(w);
    var (field, value) := (w[..n], w[n + 1..]);
    ValueChars(value);
    forall i | 0 <= i < |w|
      ensures IsWordChar(w[i])
    {
      if i < n { assert w[i] == field[i]; } else if i > n { assert w[i] == value[i - n - 1]; }
    }
  }

  lemma WordChars(w: string)
    requires IsWord(w)
    ensures w != "" && forall i :: 0 <= i < |w| ==> IsWordChar(w[i])
  {
    if IsKeywordText(w) {
      KeywordChars(w);
    } else if IsValue(w) {
      ValueChars(w);
    } else {
      FieldValueChars(w);
    }
  }

  /** A word is one token. */
  lemma LexWord(w: string)
    requires IsWord(w)
    ensures Lex(w) == Some([Word(w)])
  {
    WordChars(w);
    WordLengthWhole(w);
    assert w[..|w|] == w && w[|w|..] == [];
    assert First(w) == Took(Some(Word(w)), []);
    assert Lex(w) == Cons(Word(w), Lex([]));
    assert [Word(w)] + [] == [Word(w)];
  }

  lemma LexWordThen(w: string, b: string)
    requires IsWord(w) && Separates(b)
    ensures Lex(w + b) == Cons(Word(w), Lex(b))
  {
    LexWord(w);
    LexAppend(w, b);
  }

  /** A space or parenthesis is read on its own. */
  lemma LexMark(c: char, b: string)
    requires IsSpace(c) || c == '(' || c == ')'
    ensures Lex([c] + b) ==
      if c == '(' then Cons(LeftPar, Lex(b)) else if c == ')' then Cons(RightPar, Lex(b)) else Lex(b)
  {
    assert ([c] + b)[1..] == b;
  }

  /** Every word token is a word of the fragment. */
  lemma {:induction false} WordsAreWords(s: string)
    requires Lex(s).Some?
    ensures forall t :: t in Lex(s).value && t.Word? ==> IsWord(t.text)
    decreases |s|
  {
    if s != [] {
      WordsAreWords(First(s).rest);
    }
  }

  // ---------------------------------------------------------------- properties of the parser

  predicate Closes(ys: seq<Token>) {
    ys == [] || ys[0].RightPar?
  }

  lemma {:induction false} ParseOrLocal(ts: seq<Token>, ys: seq<Token>)
    requires ParseOr(ts).Some? && Closes(ys)
    ensures var (e, rest) := ParseOr(ts).value; ParseOr(ts + ys) == Some((e, rest + ys))
    decreases |ts|, 3
  {
    ParseAndLocal(ts, ys);
    var rest := ParseAnd(ts).value.1;
    if rest != [] && IsKeyword(rest[0], "OR") {
      ParseOrLocal(rest[1..], ys);
      assert (rest + ys)[1..] == rest[1..] + ys;
    } else if rest == [] {
      assert rest + ys == ys;
    }
  }

  lemma {:induction false} ParseAndLocal(ts: seq<Token>, ys: seq<Token>)
    requires ParseAnd(ts).Some? && Closes(ys)
    ensures var (e, rest) := ParseAnd(ts).value; ParseAnd(ts + ys) == Some((e, rest + ys))
    decreases |ts|, 2
  {
    ParseNotLocal(ts, ys);
    var rest := ParseNot(ts).value.1;
    if EndsAnd(rest) {
      if rest == [] { assert rest + ys == ys; }
    } else if IsKeyword(rest[0], "AND") {
      ParseAndLocal(rest[1..], ys);
      assert (rest + ys)[1..] == rest[1..] + ys;
    } else {
      ParseAndLocal(rest, ys);
    }
  }

  lemma {:induction false} ParseNotLocal(ts: seq<Token>, ys: seq<Token>)
    requires ParseNot(ts).Some? && Closes(ys)
    ensures var (e, rest) := ParseNot(ts).value; ParseNot(ts + ys) == Some((e, rest + ys))
    decreases |ts|, 1
  {
    assert (ts + ys)[1..] == ts[1..] + ys;
    if ts[0].LeftPar? {
      ParseOrLocal(ts[1..], ys);
      var rest := ParseOr(ts[1..]).value.1;
      assert (rest + ys)[1..] == rest[1..] + ys;
    } else if IsKeyword(ts[0], "NOT") {
      ParseNotLocal(ts[1..], ys);
    }
  }

  /** Every atom of the expression is one of the tokens, or match-all. */
  ghost predicate AtomsIn(e: Expr, ts: seq<Token>) {
    match e
    case All => true
    case Leaf(t) => t in ts
    case Not(e) => AtomsIn(e, ts)
    case And(l, r) => AtomsIn(l, ts) && AtomsIn(r, ts)
    case Or(l, r) => AtomsIn(l, ts) && AtomsIn(r, ts)
  }

  lemma {:induction false} AtomsWiden(e: Expr, ts: seq<Token>, us: seq<Token>)
    requires AtomsIn(e, ts) && forall t :: t in ts ==> t in us
    ensures AtomsIn(e, us)
  {
    match e
    case All =>
    case Leaf(_) =>
    case Not(d) => AtomsWiden(d, ts, us);
    case And(l, r) => AtomsWiden(l, ts, us); AtomsWiden(r, ts, us);
    case Or(l, r) => AtomsWiden(l, ts, us); AtomsWiden(r, ts, us);
  }

  ghost predicate FromTokens(p: Parsed, ts: seq<Token>) {
    p.Some? ==> AtomsIn(p.value.0, ts) && (forall t :: t in p.value.1 ==> t in ts)
  }

  lemma {:induction false} ParseAtoms(ts: seq<Token>, level: nat)
    requires level <= 2
    ensures level == 2 ==> FromTokens(ParseOr(ts), ts)
    ensures level == 1 ==> FromTokens(ParseAnd(ts), ts)
    ensures level == 0 ==> FromTokens(ParseNot(ts), ts)
    decreases |ts|, level
  {
    if level == 2 {
      ParseAtoms(ts, 1);
      if ParseOr(ts).Some? {
        var (l, rest) := ParseAnd(ts).value;
        if rest != [] && IsKeyword(rest[0], "OR") {
          ParseAtoms(rest[1..], 2);
          AtomsWiden(ParseOr(rest[1..]).value.0, rest[1..], ts);
        }
      }
    } else if level == 1 {
      ParseAtoms(ts, 0);
      if ParseAnd(ts).Some? {
        var (l, rest) := ParseNot(ts).value;
        if !EndsAnd(rest) {
          var next := if IsKeyword(rest[0], "AND") then rest[1..] else rest;
          ParseAtoms(next, 1);
          AtomsWiden(ParseAnd(next).value.0, next, ts);
        }
      }
    } else if ParseNot(ts).Some? {
      if ts[0].LeftPar? {
        ParseAtoms(ts[1..], 2);
        AtomsWiden(ParseOr(ts[1..]).value.0, ts[1..], ts);
      } else if IsKeyword(ts[0], "NOT") {
        ParseAtoms(ts[1..], 0);
        AtomsWiden(ParseNot(ts[1..]).value.0, ts[1..], ts);
      }
    }
  }

  /** No negation in an expression, and nothing but words and phrases at its leaves. */
  predicate Positive(e: Expr) {
    match e
    case All => true
    case Leaf(t) => t.Word? || t.Phrase?
    case Not(_) => false
    case And(l, r) => Positive(l) && Positive(r)
    case Or(l, r) => Positive(l) && Positive(r)
  }

  predicate NoNot(ts: seq<Token>) {
    forall t :: t in ts ==> !IsKeyword(t, "NOT")
  }

  lemma {:induction false} ParsePositive(ts: seq<Token>, level: nat)
    requires level <= 2 && NoNot(ts)
    ensures level == 2 && ParseOr(ts).Some? ==> Positive(ParseOr(ts).value.0) && NoNot(ParseOr(ts).value.1)
    ensures level == 1 && ParseAnd(ts).Some? ==> Positive(ParseAnd(ts).value.0) && NoNot(ParseAnd(ts).value.1)
    ensures level == 0 && ParseNot(ts).Some? ==> Positive(ParseNot(ts).value.0) && NoNot(ParseNot(ts).value.1)
    decreases |ts|, level
  {
    if level == 2 {
      ParsePositive(ts, 1);
      if ParseOr(ts).Some? {
        var rest := ParseAnd(ts).value.1;
        if rest != [] && IsKeyword(rest[0], "OR") { ParsePositive(rest[1..], 2); }
      }
    } else if level == 1 {
      ParsePositive(ts, 0);
      if ParseAnd(ts).Some? {
        var rest := ParseNot(ts).value.1;
        if !EndsAnd(rest) { ParsePositive(if IsKeyword(rest[0], "AND") then rest[1..] else rest, 1); }
      }
    } else if ParseNot(ts).Some? && ts[0].LeftPar? {
      ParsePositive(ts[1..], 2);
    }
  }

  lemma {:induction false} EvalIgnores(e: Expr, ts: seq<Token>, facts: iset<Token>, facts': iset<Token>)
    requires AtomsIn(e, ts) && forall t :: t in ts ==> (t in facts <==> t in facts')
    ensures Eval(e, facts) == Eval(e, facts')
  {
    match e
    case All =>
    case Leaf(_) =>
    case Not(d) => EvalIgnores(d, ts, facts, facts');
    case And(l, r) => EvalIgnores(l, ts, facts, facts'); EvalIgnores(r, ts, facts, facts');
    case Or(l, r) => EvalIgnores(l, ts, facts, facts'); EvalIgnores(r, ts, facts, facts');
  }

  /** Only words of the fragment are atoms of queries: no query's meaning depends on another text. */
  lemma MeaningIgnoresNonWords(s: string, w: string, facts: iset<Token>)
    requires !IsWord(w)
    ensures Meaning(s, facts) == Meaning(s, facts - iset{Word(w)})
  {
    if WellFormed(s) {
      var ts := Lex(s).value;
      WordsAreWords(s);
      ParseAtoms(ts, 2);
      EvalIgnores(Parse(s).value, ts, facts, facts - iset{Word(w)});
    }
  }
}

/** Which requests the built query answers rightly, and which free texts keep it to the requested
    fields, over all records. */
module Confinement {
  import opened Prelude
  import opened LogsQL
  import opened QueryBuilder
  import opened Records
  import opened Asking

  // ---------------------------------------------------------------- an OR outside all parentheses

  /** Whether an OR stands outside all parentheses, `depth` of which are open. */
  predicate OrOutside(ts: seq<Token>, depth: nat) {
    if ts == [] then false
    else match ts[0]
      case LeftPar => OrOutside(ts[1..], depth + 1)
      case RightPar => depth > 0 && OrOutside(ts[1..], depth - 1)
      case _ => (depth == 0 && IsKeyword(ts[0], "OR")) || OrOutside(ts[1..], depth)
  }

  /** What the parser reads has even parentheses, and an OR outside them only where ParseOr looks. */
  lemma {:induction false} ReadsEven(ts: seq<Token>, depth: nat, level: nat)
    requires level <= 2
    ensures level == 2 && depth > 0 && ParseOr(ts).Some? ==>
              OrOutside(ts, depth) == OrOutside(ParseOr(ts).value.1, depth)
    ensures level == 1 && ParseAnd(ts).Some? ==> OrOutside(ts, depth) == OrOutside(ParseAnd(ts).value.1, depth)
    ensures level == 0 && ParseNot(ts).Some? ==> OrOutside(ts, depth) == OrOutside(ParseNot(ts).value.1, depth)
    decreases |ts|, level
  {
    Keywords();
    if level == 2 {
      ReadsEven(ts, depth, 1);
      if ParseOr(ts).Some? {
        var rest := ParseAnd(ts).value.1;
        if rest != [] && IsKeyword(rest[0], "OR") { ReadsEven(rest[1..], depth, 2); }
      }
    } else if level == 1 {
      ReadsEven(ts, depth, 0);
      if ParseAnd(ts).Some? {
        var rest := ParseNot(ts).value.1;
        if !EndsAnd(rest) {
          ReadsEven(if IsKeyword(rest[0], "AND") then rest[1..] else rest, depth, 1);
        }
      }
    } else if ParseNot(ts).Some? {
      if ts[0].LeftPar? {
        ReadsEven(ts[1..], depth + 1, 2);
      } else if IsKeyword(ts[0], "NOT") {
        ReadsEven(ts[1..], depth, 0);
      }
    }
  }

  // ---------------------------------------------------------------- when text stays in its fields

  /** Every record that the built query takes fits the requested fields. */
  ghost predicate Confined(p: Params) {
    forall doc: Doc :: Meaning(EventsQuery(p), Facts(doc)) == Some(true) ==> AllHold(FieldFilters(p), Facts(doc))
  }

  /** Every record that the expression takes fits the filters. */
  ghost predicate Implies(e: Expr, words: seq<string>) {
    forall doc: Doc :: Eval(e, Facts(doc)) ==> AllHold(words, Facts(doc))
  }

  /** The tokens of the text in the endpoint's parentheses. */
  function Enclosed(p: Params): seq<Token> {
    if Lex(Strip(p.q)).None? then [] else GroupTokens(Lex(Strip(p.q)).value)
  }

  /** A text that reads has a second side exactly when an OR stands outside all parentheses. */
  lemma BeyondIsOuterOr(g: seq<Token>)
    ensures ReadTokens(g).Some? ==> (ReadTokens(g).value.beyond.Some? <==> OrOutside(g, 0))
  {
    ReadsEven(g, 0, 1);
  }

  /** The built query is one exactly when the text reads, and then exactly the texts with no OR
      outside all parentheses, or with one whose other side itself asks for the fields, keep it
      to its fields. */
  lemma ConfinedExactly(p: Params)
    requires SingleWords(p) && !Blank(p.q)
    ensures WellFormed(EventsQuery(p)) <==> ReadTokens(Enclosed(p)).Some?
    ensures WellFormed(EventsQuery(p)) ==>
      var beyond := ReadTokens(Enclosed(p)).value.beyond;
      && (beyond.Some? <==> OrOutside(Enclosed(p), 0))
      && (Confined(p) <==> (beyond.Some? ==> Implies(beyond.value, FieldFilters(p))))
  {
    AnyTextParses(p);
    BeyondIsOuterOr(Enclosed(p));
    if Read(Strip(p.q)).Some? {
      var r := Read(Strip(p.q)).value;
      forall doc: Doc
        ensures Meaning(EventsQuery(p), Facts(doc))
             == Some(ReadingHolds(r, AllHold(FieldFilters(p), Facts(doc)), Facts(doc)))
      {
        AnyTextMeans(p, Facts(doc));
      }
    }
  }

  lemma BeyondIsText(g: seq<Token>)
    ensures ReadTokens(g).Some? && ReadTokens(g).value.beyond.Some? ==> AtomsIn(ReadTokens(g).value.beyond.value, g)
  {
    if ReadTokens(g).Some? && ReadTokens(g).value.beyond.Some? {
      ParseAtoms(g, 1);
      var rest := ParseAnd(g).value.1;
      ParseAtoms(rest[1..], 2);
      AtomsWiden(ParseAll(rest[1..]).value, rest[1..], g);
    }
  }

  // ---------------------------------------------------------------- text that does not look at a field

  /** No record fits the expression. */
  ghost predicate Contradictory(e: Expr) {
    forall doc: Doc :: !Eval(e, Facts(doc))
  }

  predicate NoneLooksAt(ts: seq<Token>, field: string) {
    forall t :: t in ts ==> FieldOf(t) != field
  }

  /** The field that a filter asks about. */
  function Asked(w: string): string {
    FieldOf(Word(w))
  }

  lemma FilterValue(w: string)
    requires IsFieldWord(w)
    ensures IsValue(ValueOf(w))
  {
    if IsValue(w) {
      ValueChars(w);
      assert ':' !in w;
    }
  }

  lemma AllHoldEach(words: seq<string>, facts: iset<Token>)
    ensures AllHold(words, facts) <==> forall w :: w in words ==> Word(w) in facts
  {
  }

  /** Only a contradiction implies a filter whose field it does not look at. */
  lemma UnseenIsNotImplied(e: Expr, ts: seq<Token>, words: seq<string>, w: string)
    requires AtomsIn(e, ts) && w in words && NoneLooksAt(ts, Asked(w))
    ensures Implies(e, words) <==> Contradictory(e)
  {
    if Implies(e, words) {
      forall doc: Doc
        ensures !Eval(e, Facts(doc))
      {
        var without := doc - {Asked(w)};
        EvalIgnores(e, ts, Facts(doc), Facts(without));
        EmptyMatchesNothing(ValueOf(w));
        AllHoldEach(words, Facts(without));
      }
    }
  }

  /** When the text does not look at the field of a requested filter, nothing but a contradiction
      beyond the OR keeps the query to its fields. */
  lemma ConfinedUnlessSeen(p: Params, w: string)
    requires SingleWords(p) && !Blank(p.q) && w in FieldFilters(p)
    ensures WellFormed(EventsQuery(p)) ==> ReadTokens(Enclosed(p)).Some?
    ensures WellFormed(EventsQuery(p)) && NoneLooksAt(Enclosed(p), Asked(w)) ==>
      var beyond := ReadTokens(Enclosed(p)).value.beyond;
      Confined(p) <==> (beyond.Some? ==> Contradictory(beyond.value))
  {
    ConfinedExactly(p);
    BeyondIsText(Enclosed(p));
    if WellFormed(EventsQuery(p)) && NoneLooksAt(Enclosed(p), Asked(w)) && ReadTokens(Enclosed(p)).value.beyond.Some? {
      UnseenIsNotImplied(ReadTokens(Enclosed(p)).value.beyond.value, Enclosed(p), FieldFilters(p), w);
    }
  }

  // ---------------------------------------------------------------- text without negation

  /** No NOT, and no empty phrase, which asks for an empty message. */
  predicate Affirmative(ts: seq<Token>) {
    NoNot(ts) && forall t :: t in ts && t.Phrase? ==> Unescape(t.text) != ""
  }

  /** The expression asks for every filter. */
  predicate AsksAll(e: Expr, words: seq<string>) {
    forall w :: w in words ==> Asks(e, Asked(w), ValueOf(w))
  }

  lemma {:induction false} AffirmsText(e: Expr, ts: seq<Token>)
    requires Positive(e) && AtomsIn(e, ts) && Affirmative(ts)
    requires forall t :: t in ts && t.Word? ==> IsWord(t.text)
    ensures Affirms(e, ts)
  {
    match e
    case All =>
    case Leaf(_) =>
    case And(l, r) => AffirmsText(l, ts); AffirmsText(r, ts);
    case Or(l, r) => AffirmsText(l, ts); AffirmsText(r, ts);
  }

  lemma EnclosedWords(p: Params)
    ensures forall t :: t in Enclosed(p) && t.Word? ==> IsWord(t.text)
  {
    if Lex(Strip(p.q)).Some? { WordsAreWords(Strip(p.q)); }
  }

  lemma BeyondAffirms(p: Params)
    ensures Affirmative(Enclosed(p)) && ReadTokens(Enclosed(p)).Some? && ReadTokens(Enclosed(p)).value.beyond.Some? ==>
      Affirms(ReadTokens(Enclosed(p)).value.beyond.value, Enclosed(p))
  {
    var g := Enclosed(p);
    if Affirmative(g) && ReadTokens(g).Some? && ReadTokens(g).value.beyond.Some? {
      ParsePositive(g, 1);
      ParsePositive(ParseAnd(g).value.1[1..], 2);
      BeyondIsText(g);
      EnclosedWords(p);
      AffirmsText(ReadTokens(g).value.beyond.value, g);
    }
  }

  lemma AsksAllExactly(e: Expr, ts: seq<Token>, words: seq<string>)
    requires Affirms(e, ts) && AllWords(words)
    ensures Implies(e, words) <==> AsksAll(e, words)
  {
    forall w | w in words
      ensures Asks(e, Asked(w), ValueOf(w)) <==> forall doc: Doc :: Eval(e, Facts(doc)) ==> Word(w) in Facts(doc)
    {
      FilterValue(w);
      AsksExactly(e, ts, Asked(w), ValueOf(w));
    }
    forall doc: Doc
      ensures AllHold(words, Facts(doc)) <==> forall w :: w in words ==> Word(w) in Facts(doc)
    {
      AllHoldEach(words, Facts(doc));
    }
  }

  /** For text without negation the question is decided by its tokens: it keeps the query to the
      requested fields exactly when no OR stands outside all parentheses or what is beyond that OR
      asks for every one of them. */
  lemma ConfinedDecided(p: Params)
    requires SingleWords(p) && !Blank(p.q)
    ensures WellFormed(EventsQuery(p)) ==> ReadTokens(Enclosed(p)).Some?
    ensures WellFormed(EventsQuery(p)) && Affirmative(Enclosed(p)) ==>
      var beyond := ReadTokens(Enclosed(p)).value.beyond;
      Confined(p) <==> (OrOutside(Enclosed(p), 0) ==> beyond.Some? && AsksAll(beyond.value, FieldFilters(p)))
  {
    ConfinedExactly(p);
    BeyondAffirms(p);
    FieldFiltersAreWords(p);
    if WellFormed(EventsQuery(p)) && Affirmative(Enclosed(p)) && ReadTokens(Enclosed(p)).value.beyond.Some? {
      AsksAllExactly(ReadTokens(Enclosed(p)).value.beyond.value, Enclosed(p), FieldFilters(p));
    }
  }

  lemma {:induction false} UnseenIsNotAsked(e: Expr, ts: seq<Token>, field: string, v: string)
    requires Affirms(e, ts) && NoneLooksAt(ts, field)
    ensures !Asks(e, field, v)
  {
    match e
    case All =>
    case Leaf(_) =>
    case And(l, r) => UnseenIsNotAsked(l, ts, field, v); UnseenIsNotAsked(r, ts, field, v);
    case Or(l, r) => UnseenIsNotAsked(l, ts, field, v);
  }

  /** When it does not look at the field of a requested filter either, a look at the parentheses
      decides. */
  lemma ConfinedWithoutOuterOr(p: Params, w: string)
    requires SingleWords(p) && !Blank(p.q) && w in FieldFilters(p)
    ensures WellFormed(EventsQuery(p)) && Affirmative(Enclosed(p)) && NoneLooksAt(Enclosed(p), Asked(w)) ==>
      (Confined(p) <==> !OrOutside(Enclosed(p), 0))
  {
    ConfinedDecided(p);
    BeyondAffirms(p);
    if WellFormed(EventsQuery(p)) && Affirmative(Enclosed(p)) && NoneLooksAt(Enclosed(p), Asked(w))
       && ReadTokens(Enclosed(p)).value.beyond.Some? {
      UnseenIsNotAsked(ReadTokens(Enclosed(p)).value.beyond.value, Enclosed(p), Asked(w), ValueOf(w));
    }
  }

  // ---------------------------------------------------------------- field values that are no values

  predicate Undelimited(s: string) {
    forall i :: 0 <= i < |s| ==> !IsDelimiter(s[i])
  }

  /** The text with every delimiter replaced, which no word of the fragment notices. */
  function Blur(s: string): (b: string)
    ensures |b| == |s| && Undelimited(b)
    ensures forall i :: 0 <= i < |s| ==> b[i] == if IsDelimiter(s[i]) then ';' else s[i]
  {
    seq(|s|, i requires 0 <= i < |s| => if IsDelimiter(s[i]) then ';' else s[i])
  }

  lemma BlurBegins(text: string, x: string, i: nat)
    requires x != "" && Undelimited(x) && ';' !in x
    ensures BeginsAt(Blur(text), x, i) <==> BeginsAt(text, x, i)
    ensures OccursAt(Blur(text), x, i) <==> OccursAt(text, x, i)
  {
    var b := Blur(text);
    if BeginsAt(b, x, i) {
      forall k | 0 <= k < |x| ensures text[i + k] == x[k] { CharAt(b, x, i, k); }
      assert text[i..i + |x|] == x;
    }
    if BeginsAt(text, x, i) {
      forall k | 0 <= k < |x| ensures b[i + k] == x[k] { CharAt(text, x, i, k); }
      assert b[i..i + |x|] == x;
    }
  }

  lemma BlurMatches(text: string, v: string)
    requires v != "" && forall i :: 0 <= i < |v| ==> IsWordChar(v[i])
    ensures Matches(Blur(text), v) <==> Matches(text, v)
  {
    var x := if EndsInStar(v) then Front(v) else v;
    if x != "" {
      forall i | 0 <= i < |text|
        ensures BeginsAt(Blur(text), x, i) <==> BeginsAt(text, x, i)
        ensures OccursAt(Blur(text), x, i) <==> OccursAt(text, x, i)
      {
        BlurBegins(text, x, i);
      }
    }
  }

  lemma BlurLacks(text: string, v: string)
    requires !Undelimited(v)
    ensures !Matches(Blur(text), v)
  {
    var b := Blur(text);
    var k :| 0 <= k < |v| && IsDelimiter(v[k]);
    var x := if EndsInStar(v) then Front(v) else v;
    assert x[k] == v[k];
    forall i | 0 <= i < |b|
      ensures !BeginsAt(b, x, i)
    {
      if BeginsAt(b, x, i) { CharAt(b, x, i, k); }
    }
  }

  /** Blurring a field other than the message changes the truth of no token of a query. */
  lemma BlurKeepsTokens(doc: Doc, field: string, t: Token)
    requires field != "_msg" && (t.Word? ==> IsWord(t.text))
    ensures t in Facts(doc[field := Blur(TextOf(doc, field))]) <==> t in Facts(doc)
  {
    if t.Word? && FieldOf(t) == field {
      WordChars(t.text);
      WordValue(t.text);
      BlurMatches(TextOf(doc, field), ValueOf(t.text));
    }
  }

  lemma BlurKeepsMeaning(query: string, doc: Doc, field: string)
    requires field != "_msg"
    ensures Meaning(query, Facts(doc[field := Blur(TextOf(doc, field))])) == Meaning(query, Facts(doc))
  {
    if WellFormed(query) {
      var (ts, doc') := (Lex(query).value, doc[field := Blur(TextOf(doc, field))]);
      WordsAreWords(query);
      ParseAtoms(ts, 2);
      forall t | t in ts
        ensures t in Facts(doc) <==> t in Facts(doc')
      {
        BlurKeepsTokens(doc, field, t);
      }
      EvalIgnores(Parse(query).value, ts, Facts(doc), Facts(doc'));
    }
  }

  lemma NamedFilter(field: string, value: string)
    requires IsField(field)
    ensures Asked(field + ":" + value) == field && ValueOf(field + ":" + value) == value && Undelimited(field)
  {
    var w := field + ":" + value;
    assert ':' !in field;
    ColonOf(field, value);
    assert w[..|field|] == field && w[|field| + 1..] == value;
  }

  lemma FilterIsOneOf(p: Params, w: string)
    requires w in FieldFilters(p)
    ensures w == "domain:" + Upper(p.domain) || w == "severity:" + Upper(p.severity) || w == "protocol:" + Lower(p.protocol)
  {
  }

  lemma FilterShape(p: Params, w: string)
    requires w in FieldFilters(p)
    ensures Asked(w) != "_msg" && Asked(w) != "" && Asked(w)[0] != '"' && Undelimited(Asked(w))
    ensures w == Asked(w) + ":" + ValueOf(w)
  {
    FieldNames();
    FilterIsOneOf(p, w);
    if w == "domain:" + Upper(p.domain) {
      NamedFilter("domain", Upper(p.domain));
    } else if w == "severity:" + Upper(p.severity) {
      NamedFilter("severity", Upper(p.severity));
    } else {
      NamedFilter("protocol", Lower(p.protocol));
    }
  }

  lemma DelimiterInValue(field: string, v: string)
    requires Undelimited(field) && !Undelimited(field + ":" + v)
    ensures !Undelimited(v)
  {
    var w := field + ":" + v;
    var i :| 0 <= i < |w| && IsDelimiter(w[i]);
    assert forall k :: 0 <= k < |field| ==> w[k] == field[k];
    assert w[i] == v[i - |field| - 1];
  }

  lemma BlurredIsNotRequested(p: Params, w: string, doc: Doc)
    requires w in FieldFilters(p) && !Undelimited(ValueOf(w))
    ensures !Requested(p, Facts(doc[Asked(w) := Blur(TextOf(doc, Asked(w)))]))
  {
    var other := doc[Asked(w) := Blur(TextOf(doc, Asked(w)))];
    BlurLacks(TextOf(doc, Asked(w)), ValueOf(w));
    assert !Holds(other, Word(w));
    AllHoldEach(FieldFilters(p), Facts(other));
  }

  /** The query says of the record what was asked. */
  ghost predicate RightOf(query: string, p: Params, doc: Doc) {
    Meaning(query, Facts(doc)) == Some(Requested(p, Facts(doc)))
  }

  /** A filter with a delimiter in it is noticed by the request and not by any query. */
  lemma DelimitedIsNotAsked(query: string, p: Params, w: string, doc: Doc)
    requires w in FieldFilters(p) && !Undelimited(w)
    ensures Requested(p, Facts(doc)) ==> exists other: Doc :: !RightOf(query, p, other)
  {
    FilterShape(p, w);
    DelimiterInValue(Asked(w), ValueOf(w));
    var other := doc[Asked(w) := Blur(TextOf(doc, Asked(w)))];
    BlurKeepsMeaning(query, doc, Asked(w));
    BlurredIsNotRequested(p, w, doc);
    assert Requested(p, Facts(doc)) ==> !RightOf(query, p, doc) || !RightOf(query, p, other);
  }

  /** A run of characters that is no word of the fragment is where reading gets stuck. */
  lemma StrayIsStuck(w: string, rest: string)
    requires w != "" && Undelimited(w) && w[0] != '"' && !IsWord(w) && Separates(rest)
    ensures Lex(w + rest).None?
  {
    WordLengthWhole(w);
    WordLengthAppend(w, rest);
    assert (w + rest)[..|w|] == w;
    assert (w + rest)[0] == w[0];
  }

  lemma {:induction false} StrayIsStuckInJoin(strs: seq<string>, k: nat)
    requires k < |strs| && !IsWord(strs[k])
    requires forall i :: 0 <= i <= k ==> strs[i] != "" && Undelimited(strs[i]) && strs[i][0] != '"'
    ensures Lex(JoinAnd(strs)).None?
  {
    var w := strs[0];
    if |strs| == 1 {
      StrayIsStuck(w, "");
      assert w + "" == w;
    } else {
      var rest := JoinAnd(strs[1..]);
      Associate(w, " AND ", rest);
      if !IsWord(w) {
        StrayIsStuck(w, " AND " + rest);
      } else {
        StrayIsStuckInJoin(strs[1..], k - 1);
        AndKeyword(rest);
        LexWordThen(w, " AND " + rest);
      }
    }
  }

  lemma StrayQueryIsNone(p: Params)
    requires !SingleWords(p) && forall w :: w in FieldFilters(p) ==> Undelimited(w)
    ensures Parse(EventsQuery(p)).None?
  {
    FieldFiltersAreWords(p);
    FieldFiltersAreLong(p);
    var words := FieldFilters(p);
    var k :| 0 <= k < |words| && !IsFieldWord(words[k]);
    var strs := words + if Blank(p.q) then [] else [InParens(Strip(p.q))];
    assert EventsQuery(p) == JoinAnd(strs);
    forall i | 0 <= i <= k
      ensures strs[i] != "" && Undelimited(strs[i]) && strs[i][0] != '"'
    {
      assert strs[i] == words[i];
      FilterShape(p, words[i]);
    }
    StrayIsStuckInJoin(strs, k);
  }

  /** A field value that is no value of the fragment changes what the query says of some record, or
      takes it out of the fragment: of the requests that some record meets, exactly those by values
      of the fragment are built into a query that means them. */
  lemma SingleWordsAreNecessary(p: Params)
    ensures TextOk(p.q) && (exists doc: Doc :: Requested(p, Facts(doc))) ==>
      (SingleWords(p) <==> forall doc: Doc :: RightOf(EventsQuery(p), p, doc))
  {
    if TextOk(p.q) && exists doc: Doc :: Requested(p, Facts(doc)) {
      var doc: Doc :| Requested(p, Facts(doc));
      if SingleWords(p) {
        EventsQueryMeansForAll(p);
      } else if exists w :: w in FieldFilters(p) && !Undelimited(w) {
        var w :| w in FieldFilters(p) && !Undelimited(w);
        DelimitedIsNotAsked(EventsQuery(p), p, w, doc);
      } else {
        StrayQueryIsNone(p);
        assert !RightOf(EventsQuery(p), p, doc);
      }
    }
  }
}

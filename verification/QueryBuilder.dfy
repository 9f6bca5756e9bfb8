/** Building event queries: the filters of the /events endpoint and the domain wrapping of the
    event store's search, and what the built text means. */
module QueryBuilder {
  import opened Prelude
  import opened LogsQL

  /** The query parameters of /events; the optional ones default to the empty string here,
      which the endpoint treats like an absent one. */
  datatype Params = Params(domain: string, severity: string, protocol: string, q: string)

  /** Free text that stands for no text condition. */
  predicate Blank(q: string) {
    q == "" || Strip(q) == "" || Strip(q) == "*"
  }

  function DomainFilter(p: Params): seq<string> {
    if p.domain != "" && Upper(p.domain) != "ALL" then ["domain:" + Upper(p.domain)] else []
  }

  function SeverityFilter(p: Params): seq<string> {
    if p.severity != "" then ["severity:" + Upper(p.severity)] else []
  }

  function ProtocolFilter(p: Params): seq<string> {
    if p.protocol != "" then ["protocol:" + Lower(p.protocol)] else []
  }

  /** The field filters that are requested, in order. */
  function FieldFilters(p: Params): seq<string> {
    DomainFilter(p) + SeverityFilter(p) + ProtocolFilter(p)
  }

  function JoinAnd(parts: seq<string>): string {
    if parts == [] then "" else if |parts| == 1 then parts[0] else parts[0] + " AND " + JoinAnd(parts[1..])
  }

  function EventsQuery(p: Params): string {
    var filters := FieldFilters(p) + if Blank(p.q) then [] else ["(" + Strip(p.q) + ")"];
    if filters == [] then "*" else JoinAnd(filters)
  }

  /** The text that VictoriaLogsEvents.search sends. */
  function FullQuery(query: string, domain: Option<string>): string {
    var q := Strip(query);
    if domain.Some? && domain.value != "" then
      if q == "" || q == "*" then "domain:" + domain.value else "domain:" + domain.value + " AND (" + q + ")"
    else
      if q != "" && q != "*" then q else "*"
  }

  // ---------------------------------------------------------------- what was asked for

  ghost predicate AllHold(words: seq<string>, facts: iset<Token>) {
    forall i :: 0 <= i < |words| ==> Word(words[i]) in facts
  }

  /** The condition free text puts on a record: none when blank, else its own meaning. */
  ghost predicate TextHolds(q: string, facts: iset<Token>) {
    Blank(q) || Meaning(q, facts) == Some(true)
  }

  /** The conjunction of the requested field and text conditions. */
  ghost predicate Requested(p: Params, facts: iset<Token>) {
    AllHold(FieldFilters(p), facts) && TextHolds(p.q, facts)
  }

  /** Every requested field value is a value of the query language: a name, a name's beginning
      and `*`, or `*`. */
  predicate SingleWords(p: Params) {
    && (p.domain != "" && Upper(p.domain) != "ALL" ==> IsValue(p.domain))
    && (p.severity != "" ==> IsValue(p.severity))
    && (p.protocol != "" ==> IsValue(p.protocol))
  }

  predicate TextOk(q: string) {
    Blank(q) || WellFormed(q)
  }

  // ---------------------------------------------------------------- tokens of a joined query

  /** One operand of a joined query with its meaning: a field filter or parenthesised text. */
  datatype Part = Field(word: string) | Group(text: string)

  predicate PartOk(part: Part) {
    match part
    case Field(w) => IsFieldWord(w)
    case Group(t) => WellFormed(t)
  }

  /** A word that is neither a keyword nor the match-all word. */
  predicate IsFieldWord(w: string) {
    |w| > 3 && IsWord(w)
  }

  function Printed(part: Part): string {
    match part
    case Field(w) => w
    case Group(t) => "(" + t + ")"
  }

  ghost predicate PartHolds(part: Part, facts: iset<Token>) {
    match part
    case Field(w) => Word(w) in facts
    case Group(t) => Meaning(t, facts) == Some(true)
  }

  function PrintedAll(parts: seq<Part>): seq<string> {
    seq(|parts|, i requires 0 <= i < |parts| => Printed(parts[i]))
  }

  function Tree(part: Part): Expr
    requires PartOk(part)
  {
    match part
    case Field(w) => Leaf(Word(w))
    case Group(t) => Parse(t).value
  }

  function PartTokens(part: Part): seq<Token>
    requires PartOk(part)
  {
    match part
    case Field(w) => [Word(w)]
    case Group(t) => [LeftPar] + Lex(t).value + [RightPar]
  }

  lemma ClosingParen()
    ensures Lex(")") == Some([RightPar])
  {
    assert ")"[1..] == "" && Lex("") == Some([]);
    assert [RightPar] + [] == [RightPar];
  }

  lemma GroupLexes(t: string)
    requires Lex(t).Some?
    ensures Lex("(" + t + ")") == Some([LeftPar] + Lex(t).value + [RightPar])
  {
    ClosingParen();
    LexAppend(t, ")");
    LexMark('(', t + ")");
    Associate("(", t, ")");
    Associate([LeftPar], Lex(t).value, [RightPar]);
  }

  lemma PartLexes(part: Part)
    requires PartOk(part)
    ensures Lex(Printed(part)) == Some(PartTokens(part))
  {
    match part
    case Field(w) => LexWord(w);
    case Group(t) => GroupLexes(t);
  }

  /** What follows is not an opening parenthesis. */
  predicate NoGroup(rest: seq<Token>) {
    rest == [] || !rest[0].LeftPar?
  }

  lemma FieldParses(w: string, rest: seq<Token>)
    requires IsFieldWord(w) && NoGroup(rest)
    ensures ParseNot([Word(w)] + rest) == Some((Leaf(Word(w)), rest))
  {
    assert ([Word(w)] + rest)[1..] == rest;
    assert |Upper(w)| > 3;
  }

  lemma ParenStep(inner: seq<Token>, e: Expr, rest: seq<Token>)
    requires ParseOr(inner) == Some((e, [RightPar] + rest))
    ensures ParseNot([LeftPar] + inner) == Some((e, rest))
  {
    assert ([LeftPar] + inner)[1..] == inner;
    assert ([RightPar] + rest)[1..] == rest;
  }

  lemma ParenTokens(body: seq<Token>, rest: seq<Token>)
    ensures [LeftPar] + body + [RightPar] + rest == [LeftPar] + (body + ([RightPar] + rest))
  {
  }

  lemma GroupParses(t: string, rest: seq<Token>)
    requires WellFormed(t)
    ensures ParseNot(PartTokens(Group(t)) + rest) == Some((Parse(t).value, rest))
  {
    var body := Lex(t).value;
    var close := [RightPar] + rest;
    assert ParseOr(body) == Some((Parse(t).value, []));
    ParseOrLocal(body, close);
    assert [] + close == close;
    ParenStep(body + close, Parse(t).value, rest);
    ParenTokens(body, rest);
  }

  lemma PartParses(part: Part, rest: seq<Token>)
    requires PartOk(part) && NoGroup(rest)
    ensures ParseNot(PartTokens(part) + rest) == Some((Tree(part), rest))
  {
    match part
    case Field(w) => FieldParses(w, rest);
    case Group(t) => GroupParses(t, rest);
  }

  function AndTree(parts: seq<Part>): Expr
    requires parts != [] && forall i :: 0 <= i < |parts| ==> PartOk(parts[i])
  {
    if |parts| == 1 then Tree(parts[0]) else Expr.And(Tree(parts[0]), AndTree(parts[1..]))
  }

  function AndTokens(parts: seq<Part>): seq<Token>
    requires parts != [] && forall i :: 0 <= i < |parts| ==> PartOk(parts[i])
  {
    if |parts| == 1 then PartTokens(parts[0])
    else PartTokens(parts[0]) + [Word("AND")] + AndTokens(parts[1..])
  }

  lemma AndKeyword(s: string)
    ensures Lex(" AND " + s) == Cons(Word("AND"), Lex(s))
  {
    assert " AND " + s == [' '] + ("AND" + ([' '] + s));
    LexMark(' ', s);
    Keywords();
    LexWordThen("AND", [' '] + s);
    LexMark(' ', "AND" + ([' '] + s));
  }

  ghost predicate AllLex(strs: seq<string>) {
    forall i :: 0 <= i < |strs| ==> Lex(strs[i]).Some?
  }

  function JoinTokens(strs: seq<string>): seq<Token>
    requires strs != [] && AllLex(strs)
  {
    if |strs| == 1 then Lex(strs[0]).value
    else Lex(strs[0]).value + [Word("AND")] + JoinTokens(strs[1..])
  }

  lemma AndLexes(a: string, b: string)
    requires Lex(a).Some? && Lex(b).Some?
    ensures Lex(a + " AND " + b) == Some(Lex(a).value + [Word("AND")] + Lex(b).value)
  {
    Associate(a, " AND ", b);
    Associate(Lex(a).value, [Word("AND")], Lex(b).value);
    AndKeyword(b);
    LexAppend(a, " AND " + b);
  }

  lemma {:induction false} JoinLexes(strs: seq<string>)
    requires strs != [] && AllLex(strs)
    ensures Lex(JoinAnd(strs)) == Some(JoinTokens(strs))
  {
    if |strs| > 1 {
      JoinLexes(strs[1..]);
      AndLexes(strs[0], JoinAnd(strs[1..]));
    }
  }

  lemma PrintedLex(parts: seq<Part>)
    requires forall i :: 0 <= i < |parts| ==> PartOk(parts[i])
    ensures AllLex(PrintedAll(parts))
  {
    forall i | 0 <= i < |parts| ensures Lex(PrintedAll(parts)[i]).Some? { PartLexes(parts[i]); }
  }

  lemma PrintedTail(parts: seq<Part>)
    requires parts != []
    ensures PrintedAll(parts)[0] == Printed(parts[0]) && PrintedAll(parts)[1..] == PrintedAll(parts[1..])
  {
  }

  lemma {:induction false} PrintedTokens(parts: seq<Part>)
    requires parts != [] && forall i :: 0 <= i < |parts| ==> PartOk(parts[i])
    ensures AllLex(PrintedAll(parts)) && JoinTokens(PrintedAll(parts)) == AndTokens(parts)
  {
    PrintedLex(parts);
    PrintedTail(parts);
    PartLexes(parts[0]);
    if |parts| > 1 { PrintedTokens(parts[1..]); }
  }

  lemma Keywords()
    ensures IsKeyword(Word("AND"), "AND") && IsKeyword(Word("OR"), "OR")
    ensures !IsKeyword(Word("AND"), "OR") && !IsKeyword(Word("NOT"), "OR")
    ensures IsWord("AND") && IsWord("OR") && IsWord("NOT") && IsKeyword(Word("NOT"), "NOT")
  {
    assert Upper("AND") == "AND" && Upper("OR") == "OR" && Upper("NOT") == "NOT";
  }

  // ---------------------------------------------------------------- precedence

  /** A word that can stand alone as an operand. */
  predicate IsOperand(w: string) {
    IsWord(w) && !IsKeywordText(w) && w != "*"
  }

  /** Words with a space between each two. */
  function Spaced(words: seq<string>): string {
    if words == [] then "" else if |words| == 1 then words[0] else words[0] + " " + Spaced(words[1..])
  }

  function WordTokens(words: seq<string>): seq<Token> {
    if words == [] then []
    else if |words| == 1 then [Word(words[0])]
    else [Word(words[0])] + WordTokens(words[1..])
  }

  lemma {:induction false} SpacedLex(words: seq<string>)
    requires words != [] && forall i :: 0 <= i < |words| ==> IsWord(words[i])
    ensures Lex(Spaced(words)) == Some(WordTokens(words))
  {
    if |words| == 1 {
      LexWord(words[0]);
    } else {
      var rest := Spaced(words[1..]);
      SpacedLex(words[1..]);
      Associate(words[0], " ", rest);
      LexMark(' ', rest);
      LexWordThen(words[0], " " + rest);
    }
  }

  lemma OperandParses(w: string, rest: seq<Token>)
    requires IsOperand(w) && NoGroup(rest)
    ensures ParseNot([Word(w)] + rest) == Some((Leaf(Word(w)), rest))
  {
    assert ([Word(w)] + rest)[1..] == rest;
  }

  lemma NegatedParses(w: string, rest: seq<Token>)
    requires IsOperand(w) && NoGroup(rest)
    ensures ParseNot([Word("NOT")] + ([Word(w)] + rest)) == Some((Not(Leaf(Word(w))), rest))
  {
    Keywords();
    OperandParses(w, rest);
    assert ([Word("NOT")] + ([Word(w)] + rest))[1..] == [Word(w)] + rest;
  }

  lemma LastOperand(w: string)
    requires IsOperand(w)
    ensures ParseAnd([Word(w)]) == Some((Leaf(Word(w)), [])) && ParseAll([Word(w)]) == Some(Leaf(Word(w)))
  {
    assert [Word(w)] + [] == [Word(w)];
    OperandParses(w, []);
  }

  lemma ParsesBesideOr(ts: seq<Token>, l: Expr, next: seq<Token>, r: Expr)
    requires ParseAnd(ts) == Some((l, [Word("OR")] + next)) && ParseAll(next) == Some(r)
    ensures ParseAll(ts) == Some(Expr.Or(l, r))
  {
    Keywords();
    assert ([Word("OR")] + next)[1..] == next;
  }

  /** NOT binds tighter than AND and AND tighter than OR, on either side. */
  lemma NotAndOrParse(a: string, b: string, c: string)
    requires IsOperand(a) && IsOperand(b) && IsOperand(c)
    ensures ParseAll([Word("NOT")] + ([Word(a)] + ([Word("AND")] + ([Word(b)] + ([Word("OR")] + [Word(c)])))))
         == Some(Expr.Or(Expr.And(Not(Leaf(Word(a))), Leaf(Word(b))), Leaf(Word(c))))
  {
    var last := [Word("OR")] + [Word(c)];
    var second := [Word(b)] + last;
    Keywords();
    OperandParses(b, last);
    NegatedParses(a, [Word("AND")] + second);
    AndStep([Word("NOT")] + ([Word(a)] + ([Word("AND")] + second)), Not(Leaf(Word(a))), second, Leaf(Word(b)), last);
    LastOperand(c);
    ParsesBesideOr([Word("NOT")] + ([Word(a)] + ([Word("AND")] + second)), Expr.And(Not(Leaf(Word(a))), Leaf(Word(b))),
                   [Word(c)], Leaf(Word(c)));
  }

  lemma OrAndParse(a: string, b: string, c: string)
    requires IsOperand(a) && IsOperand(b) && IsOperand(c)
    ensures ParseAll([Word(a)] + ([Word("OR")] + ([Word(b)] + ([Word("AND")] + [Word(c)]))))
         == Some(Expr.Or(Leaf(Word(a)), Expr.And(Leaf(Word(b)), Leaf(Word(c)))))
  {
    var second := [Word(b)] + ([Word("AND")] + [Word(c)]);
    Keywords();
    OperandParses(b, [Word("AND")] + [Word(c)]);
    LastOperand(c);
    AndStep(second, Leaf(Word(b)), [Word(c)], Leaf(Word(c)), []);
    OperandParses(a, [Word("OR")] + second);
    ParsesBesideOr([Word(a)] + ([Word("OR")] + second), Leaf(Word(a)), second, Expr.And(Leaf(Word(b)), Leaf(Word(c))));
  }

  /** Two operands side by side are joined as by AND. */
  lemma JuxtaposedParse(a: string, b: string)
    requires IsOperand(a) && IsOperand(b)
    ensures ParseAll([Word(a)] + [Word(b)]) == Some(Expr.And(Leaf(Word(a)), Leaf(Word(b))))
  {
    OperandParses(a, [Word(b)]);
    LastOperand(b);
    assert !EndsAnd([Word(b)]) && !IsKeyword([Word(b)][0], "AND");
    assert ParseAnd([Word(a)] + [Word(b)]) == Some((Expr.And(Leaf(Word(a)), Leaf(Word(b))), []));
  }

  lemma SpacedMeans(words: seq<string>, e: Expr, facts: iset<Token>)
    requires words != [] && forall i :: 0 <= i < |words| ==> IsWord(words[i])
    requires ParseAll(WordTokens(words)) == Some(e)
    ensures Meaning(Spaced(words), facts) == Some(Eval(e, facts))
  {
    SpacedLex(words);
  }

  lemma ConsTokens(w: string, rest: seq<string>)
    requires rest != []
    ensures WordTokens([w] + rest) == [Word(w)] + WordTokens(rest)
  {
    assert ([w] + rest)[1..] == rest;
  }

  lemma NegationHolds(t: Token, u: Token, facts: iset<Token>)
    ensures Eval(Expr.And(Not(Leaf(t)), Leaf(u)), facts) <==> t !in facts && u in facts
  {
    assert Eval(Leaf(t), facts) == (t in facts) && Eval(Leaf(u), facts) == (u in facts);
    assert Eval(Not(Leaf(t)), facts) == (t !in facts);
  }

  lemma NotAndOrTokens(a: string, b: string, c: string)
    ensures WordTokens(["NOT"] + ([a] + (["AND"] + ([b] + (["OR"] + [c])))))
         == [Word("NOT")] + ([Word(a)] + ([Word("AND")] + ([Word(b)] + ([Word("OR")] + [Word(c)]))))
  {
    ConsTokens("NOT", [a] + (["AND"] + ([b] + (["OR"] + [c]))));
    ConsTokens(a, ["AND"] + ([b] + (["OR"] + [c])));
    ConsTokens("AND", [b] + (["OR"] + [c]));
    ConsTokens(b, ["OR"] + [c]);
    ConsTokens("OR", [c]);
  }

  lemma NotAndOrMeans(a: string, b: string, c: string, facts: iset<Token>)
    requires IsOperand(a) && IsOperand(b) && IsOperand(c)
    ensures Meaning(Spaced(["NOT"] + ([a] + (["AND"] + ([b] + (["OR"] + [c]))))), facts)
         == Some((Word(a) !in facts && Word(b) in facts) || Word(c) in facts)
  {
    Keywords();
    NotAndOrTokens(a, b, c);
    NotAndOrParse(a, b, c);
    NegationHolds(Word(a), Word(b), facts);
    SpacedMeans(["NOT"] + ([a] + (["AND"] + ([b] + (["OR"] + [c])))),
                Expr.Or(Expr.And(Not(Leaf(Word(a))), Leaf(Word(b))), Leaf(Word(c))), facts);
  }

  lemma OrAndTokens(a: string, b: string, c: string)
    ensures WordTokens([a] + (["OR"] + ([b] + (["AND"] + [c]))))
         == [Word(a)] + ([Word("OR")] + ([Word(b)] + ([Word("AND")] + [Word(c)])))
  {
    ConsTokens(a, ["OR"] + ([b] + (["AND"] + [c])));
    ConsTokens("OR", [b] + (["AND"] + [c]));
    ConsTokens(b, ["AND"] + [c]);
    ConsTokens("AND", [c]);
  }

  lemma BothHold(t: Token, u: Token, facts: iset<Token>)
    ensures Eval(Expr.And(Leaf(t), Leaf(u)), facts) <==> t in facts && u in facts
  {
    assert Eval(Leaf(t), facts) == (t in facts) && Eval(Leaf(u), facts) == (u in facts);
  }

  lemma OrAndMeans(a: string, b: string, c: string, facts: iset<Token>)
    requires IsOperand(a) && IsOperand(b) && IsOperand(c)
    ensures Meaning(Spaced([a] + (["OR"] + ([b] + (["AND"] + [c])))), facts)
         == Some(Word(a) in facts || (Word(b) in facts && Word(c) in facts))
  {
    Keywords();
    OrAndTokens(a, b, c);
    OrAndParse(a, b, c);
    BothHold(Word(b), Word(c), facts);
    SpacedMeans([a] + (["OR"] + ([b] + (["AND"] + [c]))),
                Expr.Or(Leaf(Word(a)), Expr.And(Leaf(Word(b)), Leaf(Word(c)))), facts);
  }

  lemma JuxtaposedMeans(a: string, b: string, facts: iset<Token>)
    requires IsOperand(a) && IsOperand(b)
    ensures Meaning(Spaced([a] + [b]), facts) == Some(Word(a) in facts && Word(b) in facts)
  {
    ConsTokens(a, [b]);
    JuxtaposedParse(a, b);
    SpacedMeans([a] + [b], Expr.And(Leaf(Word(a)), Leaf(Word(b))), facts);
  }

  lemma OneByOne<T>(a: T, b: T, c: T, d: T, e: T, f: T)
    ensures [a] + ([b] + ([c] + ([d] + ([e] + [f])))) == [a, b, c, d, e, f]
    ensures [a] + ([b] + ([c] + ([d] + [e]))) == [a, b, c, d, e]
    ensures [a] + [b] == [a, b]
  {
  }

  /** What the operators mean, with the precedence they have. */
  lemma Precedence(a: string, b: string, c: string, facts: iset<Token>)
    requires IsOperand(a) && IsOperand(b) && IsOperand(c)
    ensures Meaning(Spaced(["NOT", a, "AND", b, "OR", c]), facts)
         == Some((Word(a) !in facts && Word(b) in facts) || Word(c) in facts)
    ensures Meaning(Spaced([a, "OR", b, "AND", c]), facts)
         == Some(Word(a) in facts || (Word(b) in facts && Word(c) in facts))
    ensures Meaning(Spaced([a, b]), facts) == Some(Word(a) in facts && Word(b) in facts)
  {
    NotAndOrMeans(a, b, c, facts);
    OrAndMeans(a, b, c, facts);
    JuxtaposedMeans(a, b, facts);
    OneByOne("NOT", a, "AND", b, "OR", c);
    OneByOne(a, "OR", b, "AND", c, c);
    OneByOne(a, b, c, c, c, c);
  }

  // ---------------------------------------------------------------- joining

  lemma AndStep(ts: seq<Token>, l: Expr, next: seq<Token>, r: Expr, rest: seq<Token>)
    requires ParseNot(ts) == Some((l, [Word("AND")] + next)) && ParseAnd(next) == Some((r, rest))
    ensures ParseAnd(ts) == Some((Expr.And(l, r), rest))
  {
    Keywords();
    assert ([Word("AND")] + next)[1..] == next;
  }

  lemma {:induction false} JoinParses(parts: seq<Part>, rest: seq<Token>)
    requires parts != [] && EndsAnd(rest) && forall i :: 0 <= i < |parts| ==> PartOk(parts[i])
    ensures ParseAnd(AndTokens(parts) + rest) == Some((AndTree(parts), rest))
  {
    if |parts| == 1 {
      PartParses(parts[0], rest);
    } else {
      var next := AndTokens(parts[1..]) + rest;
      Keywords();
      PartParses(parts[0], [Word("AND")] + next);
      Associate(PartTokens(parts[0]) + [Word("AND")], AndTokens(parts[1..]), rest);
      Associate(PartTokens(parts[0]), [Word("AND")], next);
      JoinParses(parts[1..], rest);
      AndStep(AndTokens(parts) + rest, Tree(parts[0]), next, AndTree(parts[1..]), rest);
    }
  }

  lemma {:induction false} TreeMeans(parts: seq<Part>, facts: iset<Token>)
    requires parts != [] && forall i :: 0 <= i < |parts| ==> PartOk(parts[i])
    ensures Eval(AndTree(parts), facts) <==> forall i :: 0 <= i < |parts| ==> PartHolds(parts[i], facts)
  {
    if |parts| > 1 {
      TreeMeans(parts[1..], facts);
      assert forall i :: 1 <= i < |parts| ==> parts[i] == parts[1..][i - 1];
    }
  }

  /** Joining field filters and parenthesised texts with AND means their conjunction. */
  lemma JoinMeans(parts: seq<Part>, facts: iset<Token>)
    requires parts != [] && forall i :: 0 <= i < |parts| ==> PartOk(parts[i])
    ensures Meaning(JoinAnd(PrintedAll(parts)), facts)
         == Some(forall i :: 0 <= i < |parts| ==> PartHolds(parts[i], facts))
  {
    PrintedTokens(parts);
    JoinLexes(PrintedAll(parts));
    assert AndTokens(parts) + [] == AndTokens(parts);
    JoinParses(parts, []);
    TreeMeans(parts, facts);
  }

  // ---------------------------------------------------------------- the endpoint's query

  lemma CaseTwice(s: string)
    ensures Upper(Upper(s)) == Upper(s) && Upper(Lower(s)) == Upper(s)
  {
    assert forall i :: 0 <= i < |s| ==> Upper(Upper(s))[i] == Upper(s)[i];
    assert forall i :: 0 <= i < |s| ==> Upper(Lower(s))[i] == Upper(s)[i];
  }

  lemma NameInAnyCase(s: string, t: string)
    requires |s| == |t| && forall i :: 0 <= i < |s| ==> t[i] == UpperChar(s[i]) || t[i] == LowerChar(s[i])
    requires Upper(t) == Upper(s)
    ensures IsName(t) == IsName(s)
  {
    assert forall i :: 0 <= i < |s| ==> IsNameChar(t[i]) == IsNameChar(s[i]);
    if s != "" { assert IsTokenChar(t[0]) == IsTokenChar(s[0]); }
  }

  lemma ValueInAnyCase(s: string, t: string)
    requires |s| == |t| && forall i :: 0 <= i < |s| ==> t[i] == UpperChar(s[i]) || t[i] == LowerChar(s[i])
    requires Upper(t) == Upper(s)
    ensures IsValue(t) == IsValue(s)
  {
    NameInAnyCase(s, t);
    if s != "" {
      assert Upper(Front(s)) == Front(Upper(s)) && Upper(Front(t)) == Front(Upper(t));
      NameInAnyCase(Front(s), Front(t));
      assert Last(s) == '*' <==> Last(t) == '*';
    }
    assert s == "*" <==> t == "*" by {
      if |s| == 1 { assert s == [s[0]] && t == [t[0]]; }
    }
  }

  lemma CasePreservesValue(s: string)
    ensures IsValue(Upper(s)) == IsValue(s)
    ensures IsValue(Lower(s)) == IsValue(s)
  {
    CaseTwice(s);
    ValueInAnyCase(s, Upper(s));
    ValueInAnyCase(s, Lower(s));
  }

  predicate AllWords(words: seq<string>) {
    forall i :: 0 <= i < |words| ==> IsFieldWord(words[i])
  }

  lemma JoinedWords(a: seq<string>, b: seq<string>)
    ensures AllWords(a + b) <==> AllWords(a) && AllWords(b)
  {
    assert forall i :: 0 <= i < |a| ==> (a + b)[i] == a[i];
    assert forall i :: 0 <= i < |b| ==> (a + b)[|a| + i] == b[i];
  }

  lemma HasColon(w: string)
    requires ':' in w
    ensures !IsKeywordText(w) && !IsValue(w)
  {
    var i :| 0 <= i < |w| && w[i] == ':';
    if IsKeywordText(w) { KeywordChars(w); }
    if IsValue(w) { ValueChars(w); }
  }

  /** With a colon in it a word is a field and its value. */
  lemma ColonWord(field: string, value: string)
    requires IsField(field)
    ensures IsWord(field + ":" + value) <==> IsValue(value)
  {
    var (w, n) := (field + ":" + value, |field|);
    assert ':' !in field;
    ColonOf(field, value);
    assert w[..n] == field && w[n + 1..] == value && w[n] == ':';
    HasColon(w);
  }

  lemma OneWord(field: string, value: string)
    requires IsField(field) && |field| > 3
    ensures AllWords([field + ":" + value]) <==> IsValue(value)
  {
    ColonWord(field, value);
    assert [field + ":" + value][0] == field + ":" + value;
  }

  lemma FieldNames()
    ensures IsField("domain") && IsField("severity") && IsField("protocol")
    ensures "domain" + ":" == "domain:" && "severity" + ":" == "severity:" && "protocol" + ":" == "protocol:"
  {
    assert |Upper("domain")| == 6 && |Upper("severity")| == 8 && |Upper("protocol")| == 8;
  }

  lemma DomainFilterIsWord(p: Params)
    ensures AllWords(DomainFilter(p)) <==> (p.domain != "" && Upper(p.domain) != "ALL" ==> IsValue(p.domain))
  {
    FieldNames();
    CasePreservesValue(p.domain);
    OneWord("domain", Upper(p.domain));
  }

  lemma SeverityFilterIsWord(p: Params)
    ensures AllWords(SeverityFilter(p)) <==> (p.severity != "" ==> IsValue(p.severity))
  {
    FieldNames();
    CasePreservesValue(p.severity);
    OneWord("severity", Upper(p.severity));
  }

  lemma ProtocolFilterIsWord(p: Params)
    ensures AllWords(ProtocolFilter(p)) <==> (p.protocol != "" ==> IsValue(p.protocol))
  {
    FieldNames();
    CasePreservesValue(p.protocol);
    OneWord("protocol", Lower(p.protocol));
  }

  lemma FieldFiltersAreWords(p: Params)
    ensures SingleWords(p) <==> AllWords(FieldFilters(p))
  {
    DomainFilterIsWord(p);
    SeverityFilterIsWord(p);
    ProtocolFilterIsWord(p);
    JoinedWords(DomainFilter(p), SeverityFilter(p));
    JoinedWords(DomainFilter(p) + SeverityFilter(p), ProtocolFilter(p));
  }

  /** The operands of the query built for `p`. */
  function Parts(p: Params): seq<Part> {
    seq(|FieldFilters(p)|, i requires 0 <= i < |FieldFilters(p)| => Field(FieldFilters(p)[i]))
    + if Blank(p.q) then [] else [Group(Strip(p.q))]
  }

  lemma StripKeepsMeaning(s: string)
    requires Lex(s).Some?
    ensures Parse(Strip(s)) == Parse(s)
  {
    LexStrip(s);
  }

  lemma StarMeansAll()
    ensures Parse("*") == Some(All)
  {
    LexWord("*");
    assert |Upper("*")| == 1;
    assert [Word("*")][1..] == [];
  }

  lemma PartsAreRequested(p: Params, facts: iset<Token>)
    requires TextOk(p.q)
    ensures (forall i :: 0 <= i < |Parts(p)| ==> PartHolds(Parts(p)[i], facts)) <==> Requested(p, facts)
  {
    var (parts, n) := (Parts(p), |FieldFilters(p)|);
    if !Blank(p.q) { StripKeepsMeaning(p.q); }
    assert forall i :: 0 <= i < n ==> parts[i] == Field(FieldFilters(p)[i]);
    assert forall i :: 0 <= i < n ==> PartHolds(parts[i], facts) == (Word(FieldFilters(p)[i]) in facts);
    if !Blank(p.q) {
      assert parts[n] == Group(Strip(p.q));
      assert PartHolds(parts[n], facts) == TextHolds(p.q, facts);
    }
  }

  lemma PartsArePrinted(p: Params)
    ensures PrintedAll(Parts(p)) == FieldFilters(p) + if Blank(p.q) then [] else ["(" + Strip(p.q) + ")"]
  {
    var n := |FieldFilters(p)|;
    assert forall i :: 0 <= i < n ==> PrintedAll(Parts(p))[i] == FieldFilters(p)[i];
  }

  lemma PartsAreOk(p: Params)
    requires SingleWords(p) && TextOk(p.q)
    ensures forall i :: 0 <= i < |Parts(p)| ==> PartOk(Parts(p)[i])
  {
    FieldFiltersAreWords(p);
    if !Blank(p.q) { StripKeepsMeaning(p.q); }
  }

  /** The text built for /events means exactly the conjunction of the requested conditions. */
  lemma EventsQueryMeans(p: Params, facts: iset<Token>)
    requires SingleWords(p) && TextOk(p.q)
    ensures Meaning(EventsQuery(p), facts) == Some(Requested(p, facts))
  {
    PartsAreRequested(p, facts);
    PartsArePrinted(p);
    PartsAreOk(p);
    if Parts(p) == [] {
      StarMeansAll();
    } else {
      JoinMeans(Parts(p), facts);
    }
  }

  lemma OnePart(w: string, facts: iset<Token>)
    requires IsFieldWord(w)
    ensures Meaning(w, facts) == Some(Word(w) in facts)
  {
    JoinMeans([Field(w)], facts);
    assert PrintedAll([Field(w)]) == [w];
    assert PartHolds([Field(w)][0], facts) == (Word(w) in facts);
  }

  lemma DomainIsWord(domain: string)
    requires IsValue(domain)
    ensures IsFieldWord("domain:" + domain)
  {
    FieldNames();
    ColonWord("domain", domain);
  }

  lemma TwoParts(w: string, q: string, facts: iset<Token>)
    requires IsFieldWord(w) && WellFormed(q)
    ensures Meaning(w + " AND " + ("(" + q + ")"), facts) == Some(Word(w) in facts && Meaning(q, facts) == Some(true))
  {
    var parts := [Field(w), Group(q)];
    JoinMeans(parts, facts);
    assert PrintedAll(parts) == [w, "(" + q + ")"];
    assert [w, "(" + q + ")"][1..] == ["(" + q + ")"];
    assert PartHolds(parts[0], facts) == (Word(w) in facts);
    assert PartHolds(parts[1], facts) == (Meaning(q, facts) == Some(true));
  }

  lemma FullQueryWithDomain(query: string, domain: string)
    requires domain != ""
    ensures FullQuery(query, Some(domain)) ==
      if Blank(query) then "domain:" + domain else "domain:" + domain + " AND " + ("(" + Strip(query) + ")")
  {
    var q := Strip(query);
    Associate("domain:" + domain, " AND ", "(" + q + ")");
    assert " AND " + ("(" + q + ")") == " AND (" + q + ")";
    assert "domain:" + domain + " AND (" + q + ")" == "domain:" + domain + (" AND (" + q + ")");
  }

  lemma SearchWithDomain(query: string, domain: string, facts: iset<Token>)
    requires TextOk(query) && IsValue(domain)
    ensures Meaning(FullQuery(query, Some(domain)), facts)
         == Some(Word("domain:" + domain) in facts && TextHolds(query, facts))
  {
    DomainIsWord(domain);
    FullQueryWithDomain(query, domain);
    if Blank(query) {
      OnePart("domain:" + domain, facts);
    } else {
      StripKeepsMeaning(query);
      TwoParts("domain:" + domain, Strip(query), facts);
    }
  }

  /** `search` adds exactly its domain condition, and none when it has no domain. */
  lemma SearchMeans(query: string, domain: Option<string>, facts: iset<Token>)
    requires Strip(query) == "" || Strip(query) == "*" || WellFormed(query)
    requires domain.Some? && domain.value != "" ==> IsValue(domain.value)
    ensures Meaning(FullQuery(query, domain), facts)
         == Some((domain.Some? && domain.value != "" ==> Word("domain:" + domain.value) in facts)
                 && (Strip(query) == "" || Strip(query) == "*" || Meaning(query, facts) == Some(true)))
  {
    if domain.Some? && domain.value != "" {
      SearchWithDomain(query, domain.value, facts);
    } else {
      if !Blank(query) { StripKeepsMeaning(query); }
      StarMeansAll();
    }
  }

  lemma EmptyIsNoQuery()
    ensures Lex("") == Some([]) && Parse("").None?
  {
  }

  lemma BlankQueryMeansAll(query: string, facts: iset<Token>)
    requires WellFormed(query) && Blank(query)
    ensures Meaning(query, facts) == Some(true)
  {
    StripKeepsMeaning(query);
    EmptyIsNoQuery();
    StarMeansAll();
  }

  /** End to end: the query the store receives for a request means exactly that request. */
  lemma EndpointMeans(p: Params, facts: iset<Token>)
    requires SingleWords(p) && TextOk(p.q)
    ensures Meaning(FullQuery(EventsQuery(p), None), facts) == Some(Requested(p, facts))
  {
    var query := EventsQuery(p);
    EventsQueryMeans(p, facts);
    assert WellFormed(query);
    SearchMeans(query, None, facts);
    if Blank(query) { BlankQueryMeansAll(query, facts); }
  }

  lemma FieldFiltersAreLong(p: Params)
    ensures forall i :: 0 <= i < |FieldFilters(p)| ==> |FieldFilters(p)[i]| > 3
  {
  }

  // ---------------------------------------------------------------- free text of any shape

  /** How the end of a query reads when it follows `... AND`: what is still joined to the fields,
      and what an OR outside all parentheses puts beside them. */
  datatype Reading = Reading(inside: Expr, beyond: Option<Expr>)

  function ReadTokens(g: seq<Token>): Option<Reading> {
    if ParseAnd(g).None? then None else
    var (l, rest) := ParseAnd(g).value;
    if rest == [] then Some(Reading(l, None))
    else if !IsKeyword(rest[0], "OR") || ParseAll(rest[1..]).None? then None
    else Some(Reading(l, ParseAll(rest[1..])))
  }

  function InParens(text: string): string {
    "(" + text + ")"
  }

  function GroupTokens(ts: seq<Token>): seq<Token> {
    [LeftPar] + ts + [RightPar]
  }

  /** How `text` reads in the parentheses that the endpoint puts around it. */
  function Read(text: string): Option<Reading> {
    if Lex(text).None? then None else ReadTokens(GroupTokens(Lex(text).value))
  }

  /** What a reading says next to field filters whose conjunction is `fields`. */
  ghost predicate ReadingHolds(r: Reading, fields: bool, facts: iset<Token>) {
    (fields && Eval(r.inside, facts)) || (r.beyond.Some? && Eval(r.beyond.value, facts))
  }

  function FieldTokens(words: seq<string>, g: seq<Token>): seq<Token> {
    if words == [] then g else [Word(words[0])] + ([Word("AND")] + FieldTokens(words[1..], g))
  }

  function FieldTree(words: seq<string>, e: Expr): Expr {
    if words == [] then e else Expr.And(Leaf(Word(words[0])), FieldTree(words[1..], e))
  }

  lemma GroupLexesOrNot(t: string)
    ensures Lex(InParens(t)) == if Lex(t).None? then None else Some(GroupTokens(Lex(t).value))
  {
    if Lex(t).None? {
      LexStuck(t, ')');
      assert InParens(t) == ['('] + (t + [')']);
      LexMark('(', t + [')']);
    } else {
      GroupLexes(t);
    }
  }

  lemma AndPrepends(w: string, s: string)
    requires IsFieldWord(w)
    ensures Lex(w + " AND " + s) == Cons(Word(w), Cons(Word("AND"), Lex(s)))
  {
    Associate(w, " AND ", s);
    AndKeyword(s);
    LexWordThen(w, " AND " + s);
  }

  lemma {:induction false} FieldsLex(words: seq<string>, s: string)
    requires AllWords(words)
    ensures Lex(JoinAnd(words + [s])) == if Lex(s).None? then None else Some(FieldTokens(words, Lex(s).value))
  {
    if words != [] {
      assert (words + [s])[1..] == words[1..] + [s];
      FieldsLex(words[1..], s);
      AndPrepends(words[0], JoinAnd(words[1..] + [s]));
    }
  }

  function Joined(words: seq<string>, p: Parsed): Parsed {
    if p.None? then None else Some((FieldTree(words, p.value.0), p.value.1))
  }

  lemma AndAfterField(w: string, next: seq<Token>)
    requires IsFieldWord(w)
    ensures ParseAnd([Word(w)] + ([Word("AND")] + next)) == Joined([w], ParseAnd(next))
  {
    Keywords();
    var rest := [Word("AND")] + next;
    FieldParses(w, rest);
    assert rest[0] == Word("AND") && rest[1..] == next && !EndsAnd(rest);
    if ParseAnd(next).Some? {
      assert [w][1..] == [];
      assert FieldTree([w], ParseAnd(next).value.0) == Expr.And(Leaf(Word(w)), ParseAnd(next).value.0);
    }
  }

  lemma {:induction false} FieldsParse(words: seq<string>, g: seq<Token>)
    requires AllWords(words)
    ensures ParseAnd(FieldTokens(words, g)) == Joined(words, ParseAnd(g))
  {
    if words != [] {
      AndAfterField(words[0], FieldTokens(words[1..], g));
      FieldsParse(words[1..], g);
    }
  }

  lemma {:induction false} FieldTreeMeans(words: seq<string>, e: Expr, facts: iset<Token>)
    ensures Eval(FieldTree(words, e), facts) <==> AllHold(words, facts) && Eval(e, facts)
  {
    if words != [] {
      FieldTreeMeans(words[1..], e, facts);
      assert forall i :: 1 <= i < |words| ==> words[i] == words[1..][i - 1];
    }
  }

  function ReadingTree(words: seq<string>, r: Reading): Expr {
    var inside := FieldTree(words, r.inside);
    if r.beyond.None? then inside else Expr.Or(inside, r.beyond.value)
  }

  /** After the fields the rest of a query is taken apart as `ReadTokens` says. */
  lemma FieldsRead(words: seq<string>, g: seq<Token>)
    requires AllWords(words)
    ensures ParseAll(FieldTokens(words, g)) ==
      if ReadTokens(g).None? then None else Some(ReadingTree(words, ReadTokens(g).value))
  {
    FieldsParse(words, g);
  }

  /** The syntax tree of the built query for any text at all. */
  lemma AnyTextParses(p: Params)
    requires SingleWords(p) && !Blank(p.q)
    ensures Parse(EventsQuery(p)) ==
      if Read(Strip(p.q)).None? then None else Some(ReadingTree(FieldFilters(p), Read(Strip(p.q)).value))
  {
    var (words, t) := (FieldFilters(p), Strip(p.q));
    FieldFiltersAreWords(p);
    GroupLexesOrNot(t);
    FieldsLex(words, InParens(t));
    if Lex(t).Some? { FieldsRead(words, GroupTokens(Lex(t).value)); }
  }

  /** What the built query means for any text at all: a text that does not read leaves no query; in
      any other the fields are joined to what precedes the first OR outside all parentheses, and
      only to that. */
  lemma AnyTextMeans(p: Params, facts: iset<Token>)
    requires SingleWords(p) && !Blank(p.q)
    ensures Meaning(EventsQuery(p), facts) ==
      if Read(Strip(p.q)).None? then None
      else Some(ReadingHolds(Read(Strip(p.q)).value, AllHold(FieldFilters(p), facts), facts))
  {
    AnyTextParses(p);
    if Read(Strip(p.q)).Some? { FieldTreeMeans(FieldFilters(p), Read(Strip(p.q)).value.inside, facts); }
  }

  lemma AloneParses(g: seq<Token>, e: Expr)
    requires ParseNot(g) == Some((e, []))
    ensures ParseAnd(g) == Some((e, [])) && ParseAll(g) == Some(e)
  {
  }

  lemma ReadsAlone(q: string)
    requires WellFormed(q)
    ensures ParseAnd(GroupTokens(Lex(q).value)) == Some((Parse(q).value, []))
    ensures ParseAll(GroupTokens(Lex(q).value)) == Parse(q)
  {
    GroupParses(q, []);
    assert PartTokens(Group(q)) + [] == GroupTokens(Lex(q).value);
    AloneParses(GroupTokens(Lex(q).value), Parse(q).value);
  }

  /** Well-formed text is read as itself. */
  lemma WellFormedReads(q: string)
    requires WellFormed(q)
    ensures Read(q) == Some(Reading(Parse(q).value, None))
  {
    ReadsAlone(q);
  }

  lemma OrKeyword(s: string)
    ensures Lex(" OR " + s) == Cons(Word("OR"), Lex(s))
  {
    Keywords();
    assert " OR " + s == [' '] + ("OR" + ([' '] + s));
    LexMark(' ', s);
    LexWordThen("OR", [' '] + s);
    LexMark(' ', "OR" + ([' '] + s));
  }

  lemma OrLexes(b: string)
    requires Lex(b).Some?
    ensures Lex(" OR (" + b) == Cons(Word("OR"), Cons(LeftPar, Lex(b)))
  {
    assert " OR (" + b == " OR " + (['('] + b);
    LexMark('(', b);
    OrKeyword(['('] + b);
  }

  lemma UnbalancedText(a: string, b: string)
    ensures a + ") OR (" + b == a + ([')'] + (" OR (" + b))
  {
    assert ") OR (" == [')'] + " OR (";
  }

  lemma UnbalancedLexes(a: string, b: string)
    requires Lex(a).Some? && Lex(b).Some?
    ensures Lex(a + ") OR (" + b) == Plus(Lex(a), Cons(RightPar, Cons(Word("OR"), Cons(LeftPar, Lex(b)))))
  {
    UnbalancedText(a, b);
    OrLexes(b);
    LexMark(')', " OR (" + b);
    LexAppend(a, [')'] + (" OR (" + b));
  }

  lemma Regroup(x: seq<Token>, y: seq<Token>)
    ensures GroupTokens(x + ([RightPar] + ([Word("OR")] + ([LeftPar] + y))))
         == GroupTokens(x) + ([Word("OR")] + GroupTokens(y))
  {
  }

  lemma ReadsBeside(g: seq<Token>, l: Expr, h: seq<Token>)
    requires ParseAnd(g) == Some((l, [Word("OR")] + h)) && ParseAll(h).Some?
    ensures ReadTokens(g) == Some(Reading(l, ParseAll(h)))
  {
    Keywords();
    assert ([Word("OR")] + h)[1..] == h;
  }

  lemma UnbalancedReads(a: string, b: string)
    requires WellFormed(a) && WellFormed(b)
    ensures Read(a + ") OR (" + b) == Some(Reading(Parse(a).value, Some(Parse(b).value)))
  {
    var (x, y) := (Lex(a).value, Lex(b).value);
    UnbalancedLexes(a, b);
    Regroup(x, y);
    Keywords();
    GroupParses(a, [Word("OR")] + GroupTokens(y));
    ReadsAlone(b);
    ReadsBeside(GroupTokens(x) + ([Word("OR")] + GroupTokens(y)), Parse(a).value, GroupTokens(y));
  }

  lemma BlankLexes(q: string)
    requires Blank(q) && Lex(q).Some?
    ensures |Lex(q).value| <= 1
  {
    LexStrip(q);
    LexWord("*");
  }

  /** The plainest text that is not confined: with `a) OR (b` the built query also takes every
      record that `b` takes. */
  lemma UnbalancedTextEscapes(p: Params, a: string, b: string, facts: iset<Token>)
    requires SingleWords(p) && WellFormed(a) && WellFormed(b) && p.q == a + ") OR (" + b
    ensures Meaning(EventsQuery(p), facts)
         == Some((AllHold(FieldFilters(p), facts) && Meaning(a, facts) == Some(true)) || Meaning(b, facts) == Some(true))
  {
    UnbalancedLexes(a, b);
    if Blank(p.q) { BlankLexes(p.q); }
    UnbalancedReads(a, b);
    LexStrip(p.q);
    AnyTextMeans(p, facts);
  }

  lemma EventsQueryMeansForAll(p: Params)
    requires SingleWords(p) && TextOk(p.q)
    ensures forall facts :: Meaning(EventsQuery(p), facts) == Some(Requested(p, facts))
  {
    forall facts ensures Meaning(EventsQuery(p), facts) == Some(Requested(p, facts)) {
      EventsQueryMeans(p, facts);
    }
  }

  /** The parameters as the endpoint reads them: an absent severity or protocol is falsy. */
  function FromRequest(domain: string, severity: Option<string>, protocol: Option<string>, q: string): Params {
    Params(domain, if severity.Some? then severity.value else "", if protocol.Some? then protocol.value else "", q)
  }

  lemma OneHolds(words: seq<string>, w: string, asked: bool, facts: iset<Token>)
    requires words == if asked then [w] else []
    ensures AllHold(words, facts) <==> (asked ==> Word(w) in facts)
  {
    if asked { assert words[0] == w; }
  }

  lemma AllHoldJoined(a: seq<string>, b: seq<string>, facts: iset<Token>)
    ensures AllHold(a + b, facts) <==> AllHold(a, facts) && AllHold(b, facts)
  {
    assert forall i :: 0 <= i < |a| ==> (a + b)[i] == a[i];
    assert forall i :: 0 <= i < |b| ==> (a + b)[|a| + i] == b[i];
  }

  /** The requested filters one by one. */
  lemma FieldsHold(p: Params, facts: iset<Token>)
    ensures AllHold(FieldFilters(p), facts) <==>
      && (p.domain != "" && Upper(p.domain) != "ALL" ==> Word("domain:" + Upper(p.domain)) in facts)
      && (p.severity != "" ==> Word("severity:" + Upper(p.severity)) in facts)
      && (p.protocol != "" ==> Word("protocol:" + Lower(p.protocol)) in facts)
  {
    OneHolds(DomainFilter(p), "domain:" + Upper(p.domain), p.domain != "" && Upper(p.domain) != "ALL", facts);
    OneHolds(SeverityFilter(p), "severity:" + Upper(p.severity), p.severity != "", facts);
    OneHolds(ProtocolFilter(p), "protocol:" + Lower(p.protocol), p.protocol != "", facts);
    AllHoldJoined(DomainFilter(p), SeverityFilter(p), facts);
    AllHoldJoined(DomainFilter(p) + SeverityFilter(p), ProtocolFilter(p), facts);
  }

  /** A parameter that is given and not empty. */
  predicate Given(value: Option<string>) {
    value.Some? && value.value != ""
  }

  /** The text is blank or `*`. */
  predicate AsksNothing(q: string) {
    Strip(q) == "" || Strip(q) == "*"
  }

  lemma RequestedPlainly(domain: string, severity: Option<string>, protocol: Option<string>, q: string, facts: iset<Token>)
    requires domain != "" && Upper(domain) != "ALL" ==> IsValue(domain)
    requires Given(severity) ==> IsValue(severity.value)
    requires Given(protocol) ==> IsValue(protocol.value)
    requires AsksNothing(q) || WellFormed(q)
    ensures SingleWords(FromRequest(domain, severity, protocol, q)) && TextOk(q)
    ensures Requested(FromRequest(domain, severity, protocol, q), facts) <==>
      && (domain != "" && Upper(domain) != "ALL" ==> Word("domain:" + Upper(domain)) in facts)
      && (Given(severity) ==> Word("severity:" + Upper(severity.value)) in facts)
      && (Given(protocol) ==> Word("protocol:" + Lower(protocol.value)) in facts)
      && (AsksNothing(q) || Meaning(q, facts) == Some(true))
  {
    FieldsHold(FromRequest(domain, severity, protocol, q), facts);
    assert Blank(q) <==> AsksNothing(q);
  }

  /** `query_events` up to the call of the store. */
  method QueryEvents(domain: string, severity: Option<string>, protocol: Option<string>, q: string) returns (query: string)
    ensures query == EventsQuery(FromRequest(domain, severity, protocol, q))
    ensures
      && (domain != "" && Upper(domain) != "ALL" ==> IsValue(domain))
      && (severity.Some? && severity.value != "" ==> IsValue(severity.value))
      && (protocol.Some? && protocol.value != "" ==> IsValue(protocol.value))
      && (Strip(q) == "" || Strip(q) == "*" || WellFormed(q)) ==>
      forall facts :: Meaning(query, facts) == Some(
        && (domain != "" && Upper(domain) != "ALL" ==> Word("domain:" + Upper(domain)) in facts)
        && (severity.Some? && severity.value != "" ==> Word("severity:" + Upper(severity.value)) in facts)
        && (protocol.Some? && protocol.value != "" ==> Word("protocol:" + Lower(protocol.value)) in facts)
        && (Strip(q) == "" || Strip(q) == "*" || Meaning(q, facts) == Some(true)))
  {
    ghost var p := FromRequest(domain, severity, protocol, q);
    var filters: seq<string> := [];
    if domain != "" && Upper(domain) != "ALL" {
      filters := filters + ["domain:" + Upper(domain)];
    }
    assert filters == DomainFilter(p);
    if severity.Some? && severity.value != "" {
      filters := filters + ["severity:" + Upper(severity.value)];
    }
    assert filters == DomainFilter(p) + SeverityFilter(p);
    if protocol.Some? && protocol.value != "" {
      filters := filters + ["protocol:" + Lower(protocol.value)];
    }
    assert filters == FieldFilters(p);
    if !Blank(q) {
      filters := filters + ["(" + Strip(q) + ")"];
    }
    assert filters == FieldFilters(p) + if Blank(q) then [] else ["(" + Strip(q) + ")"];
    query := if filters != [] then JoinAnd(filters) else "*";
    if (domain != "" && Upper(domain) != "ALL" ==> IsValue(domain)) && (Given(severity) ==> IsValue(severity.value))
       && (Given(protocol) ==> IsValue(protocol.value)) && (AsksNothing(q) || WellFormed(q)) {
      forall facts
        ensures Meaning(query, facts) == Some(Requested(p, facts))
        ensures Requested(p, facts) <==>
          && (domain != "" && Upper(domain) != "ALL" ==> Word("domain:" + Upper(domain)) in facts)
          && (Given(severity) ==> Word("severity:" + Upper(severity.value)) in facts)
          && (Given(protocol) ==> Word("protocol:" + Lower(protocol.value)) in facts)
          && (AsksNothing(q) || Meaning(q, facts) == Some(true))
      {
        RequestedPlainly(domain, severity, protocol, q, facts);
        EventsQueryMeans(p, facts);
      }
    }
  }
}

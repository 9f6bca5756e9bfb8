/**
 When an expression without negation asks for a filter: whether every record it takes fits the
 filter can be read off its syntax tree.
 */
module Asking {
  import opened Prelude
  import opened LogsQL
  import opened Records

  // ---------------------------------------------------------------- occurrences in occurrences

  lemma SliceOfSlice(text: string, i: nat, n: nat, j: nat, k: nat)
    requires i + n <= |text| && j + k <= n
    ensures text[i..i + n][j..j + k] == text[i + j..i + j + k]
  {
    var (a, b) := (text[i..i + n][j..j + k], text[i + j..i + j + k]);
    assert forall q :: 0 <= q < k ==> a[q] == b[q];
    assert a == b;
  }

  lemma CharAt(text: string, x: string, i: nat, k: nat)
    requires x != "" && BeginsAt(text, x, i) && k < |x|
    ensures text[i + k] == x[k]
  {
    assert text[i + k] == text[i..i + |x|][k];
  }

  lemma Within(text: string, n: string, i: nat, x: string, j: nat)
    requires n != "" && x != "" && BeginsAt(text, n, i) && BeginsAt(n, x, j)
    ensures BeginsAt(text, x, i + j)
  {
    SliceOfSlice(text, i, |n|, j, |x|);
    if 0 < j { CharAt(text, n, i, j - 1); } else { CharAt(n, x, 0, 0); }
  }

  lemma WholeWithin(text: string, n: string, i: nat, v: string, j: nat)
    requires n != "" && v != "" && OccursAt(text, n, i) && OccursAt(n, v, j)
    ensures OccursAt(text, v, i + j)
  {
    Within(text, n, i, v, j);
    if j + |v| < |n| {
      CharAt(text, n, i, j + |v|);
    } else {
      CharAt(n, v, j, |v| - 1);
    }
  }

  /** A text that has a phrase matches whatever the phrase itself matches. */
  lemma PhraseCarries(text: string, n: string, v: string)
    requires n != "" && v != "" && Occurs(text, n) && Matches(n, v)
    ensures Matches(text, v)
  {
    var i :| 0 <= i < |text| && OccursAt(text, n, i);
    if !EndsInStar(v) {
      var j :| 0 <= j < |n| && OccursAt(n, v, j);
      WholeWithin(text, n, i, v, j);
    } else if Front(v) != "" {
      var j :| 0 <= j < |n| && BeginsAt(n, Front(v), j);
      Within(text, n, i, Front(v), j);
    }
  }

  /** A letter that no filter value contains. */
  const LETTER: char := '\U{e9}'

  lemma ValueHasNoLetter(v: string)
    requires IsValue(v)
    ensures v != "" && LETTER !in v && ' ' !in v
    ensures EndsInStar(v) ==> LETTER !in Front(v) && ' ' !in Front(v)
  {
    ValueChars(v);
  }

  /** What begins in `n` followed by that letter, and does not contain it, begins in `n`. */
  lemma BeginsBefore(n: string, x: string, j: nat)
    requires x != "" && LETTER !in x && BeginsAt(n + [LETTER], x, j)
    ensures n != "" && j + |x| <= |n| && BeginsAt(n, x, j)
  {
    var m := n + [LETTER];
    if j + |x| > |n| { CharAt(m, x, j, |n| - j); }
    assert m[j..j + |x|] == n[j..j + |x|];
  }

  /** A text with a word that begins with `n` matches whatever any continuation of `n` matches. */
  lemma PrefixCarries(text: string, n: string, v: string)
    requires IsValue(v) && HasPrefix(text, n) && Matches(n + [LETTER], v)
    ensures Matches(text, v)
  {
    ValueHasNoLetter(v);
    var m := n + [LETTER];
    if !EndsInStar(v) {
      var j :| 0 <= j < |m| && OccursAt(m, v, j);
      BeginsBefore(n, v, j);
      var i :| 0 <= i < |text| && BeginsAt(text, n, i);
      Within(text, n, i, v, j);
      if j + |v| < |n| { CharAt(text, n, i, j + |v|); }
      assert m[j + |v|] == if j + |v| < |n| then n[j + |v|] else LETTER;
      assert OccursAt(text, v, i + j);
    } else if Front(v) != "" {
      var j :| 0 <= j < |m| && BeginsAt(m, Front(v), j);
      BeginsBefore(n, Front(v), j);
      var i :| 0 <= i < |text| && BeginsAt(text, n, i);
      Within(text, n, i, Front(v), j);
    }
  }

  // ---------------------------------------------------------------- texts side by side

  /** Two texts next to each other, with a space between. */
  function Beside(a: string, b: string): string {
    a + [' '] + b
  }

  lemma BesideParts(a: string, b: string)
    ensures |Beside(a, b)| == |a| + 1 + |b| && Beside(a, b)[|a|] == ' '
    ensures Beside(a, b)[..|a|] == a && Beside(a, b)[|a| + 1..] == b
    ensures forall k :: 0 <= k < |a| ==> Beside(a, b)[k] == a[k]
    ensures forall k :: 0 <= k < |b| ==> Beside(a, b)[|a| + 1 + k] == b[k]
  {
  }

  lemma BeginsLeft(a: string, b: string, x: string, i: nat)
    requires x != "" && BeginsAt(a, x, i)
    ensures BeginsAt(Beside(a, b), x, i)
    ensures OccursAt(a, x, i) ==> OccursAt(Beside(a, b), x, i)
  {
    BesideParts(a, b);
    assert Beside(a, b)[i..i + |x|] == a[i..i + |x|];
  }

  lemma BeginsRight(a: string, b: string, x: string, i: nat)
    requires x != "" && BeginsAt(b, x, i)
    ensures BeginsAt(Beside(a, b), x, |a| + 1 + i)
    ensures OccursAt(b, x, i) ==> OccursAt(Beside(a, b), x, |a| + 1 + i)
  {
    BesideParts(a, b);
    assert Beside(a, b)[|a| + 1 + i..|a| + 1 + i + |x|] == b[i..i + |x|];
  }

  lemma OccursBeside(a: string, b: string, x: string)
    ensures Occurs(a, x) || Occurs(b, x) ==> Occurs(Beside(a, b), x)
    ensures HasPrefix(a, x) || HasPrefix(b, x) ==> HasPrefix(Beside(a, b), x)
  {
    if x != "" {
      forall i | 0 <= i < |a| && BeginsAt(a, x, i)
        ensures BeginsAt(Beside(a, b), x, i) && (OccursAt(a, x, i) ==> OccursAt(Beside(a, b), x, i))
      {
        BeginsLeft(a, b, x, i);
      }
      forall i | 0 <= i < |b| && BeginsAt(b, x, i)
        ensures BeginsAt(Beside(a, b), x, |a| + 1 + i)
        ensures OccursAt(b, x, i) ==> OccursAt(Beside(a, b), x, |a| + 1 + i)
      {
        BeginsRight(a, b, x, i);
      }
    }
  }

  /** What has no space in it begins in one of the two. */
  lemma BeginsInOne(a: string, b: string, x: string, i: nat)
    requires x != "" && ' ' !in x && BeginsAt(Beside(a, b), x, i)
    ensures if i < |a| then BeginsAt(a, x, i) else i > |a| && BeginsAt(b, x, i - |a| - 1)
    ensures OccursAt(Beside(a, b), x, i) ==> if i < |a| then OccursAt(a, x, i) else OccursAt(b, x, i - |a| - 1)
  {
    BesideParts(a, b);
    var m := Beside(a, b);
    if i <= |a| < i + |x| { CharAt(m, x, i, |a| - i); }
    if i < |a| {
      assert m[i..i + |x|] == a[i..i + |x|];
    } else {
      assert m[i..i + |x|] == b[i - |a| - 1..i - |a| - 1 + |x|];
    }
  }

  lemma MatchesInOne(a: string, b: string, v: string)
    requires a != "" && IsValue(v) && Matches(Beside(a, b), v)
    ensures Matches(a, v) || Matches(b, v)
  {
    ValueHasNoLetter(v);
    var m := Beside(a, b);
    if !EndsInStar(v) {
      var i :| 0 <= i < |m| && OccursAt(m, v, i);
      BeginsInOne(a, b, v, i);
    } else if Front(v) != "" {
      var i :| 0 <= i < |m| && BeginsAt(m, Front(v), i);
      BeginsInOne(a, b, Front(v), i);
    }
  }

  // ---------------------------------------------------------------- what an atom asks for

  /** An atom that asks for some text: a word, or a phrase that is not empty. */
  predicate IsAtom(t: Token) {
    (t.Word? && IsWord(t.text)) || (t.Phrase? && Unescape(t.text) != "")
  }

  /** The least text that an atom matches, where a prefix goes on with an arbitrary letter. */
  function Piece(t: Token): string {
    match t
    case Word(w) => var u := ValueOf(w); if EndsInStar(u) then Front(u) + [LETTER] else u
    case Phrase(q) => Unescape(q)
    case _ => ""
  }

  lemma WordValue(w: string)
    requires IsWord(w)
    ensures ValueOf(w) != ""
  {
    WordChars(w);
    if IsFieldValue(w) {
      ValueChars(w[Colon(w) + 1..]);
    } else if IsValue(w) {
      ValueChars(w);
      assert ':' !in w;
    } else {
      KeywordChars(w);
      assert ':' !in w;
    }
  }

  lemma OccursInItself(u: string)
    requires u != ""
    ensures Occurs(u, u)
  {
    assert u[0..0 + |u|] == u;
    assert OccursAt(u, u, 0);
  }

  lemma PieceMatches(t: Token)
    requires IsAtom(t)
    ensures Piece(t) != "" && AtomMatches(Piece(t), t)
  {
    if t.Phrase? {
      OccursInItself(Unescape(t.text));
    } else {
      var u := ValueOf(t.text);
      WordValue(t.text);
      if !EndsInStar(u) {
        OccursInItself(u);
      } else if Front(u) != "" {
        assert (Front(u) + [LETTER])[0..0 + |Front(u)|] == Front(u);
        assert BeginsAt(Front(u) + [LETTER], Front(u), 0);
      }
    }
  }

  lemma AtomMatchesBeside(a: string, b: string, t: Token)
    requires IsAtom(t) && (AtomMatches(a, t) || AtomMatches(b, t))
    ensures AtomMatches(Beside(a, b), t)
  {
    if t.Phrase? {
      OccursBeside(a, b, Unescape(t.text));
    } else {
      var u := ValueOf(t.text);
      OccursBeside(a, b, if EndsInStar(u) then Front(u) else u);
    }
  }

  /** Every text that the atom matches fits the filter. */
  predicate AtomAsks(t: Token, field: string, v: string) {
    FieldOf(t) == field && Matches(Piece(t), v)
  }

  lemma AtomAsksSoundly(t: Token, field: string, v: string, text: string)
    requires IsAtom(t) && IsValue(v) && AtomAsks(t, field, v) && AtomMatches(text, t)
    ensures Matches(text, v)
  {
    ValueHasNoLetter(v);
    if t.Phrase? {
      PhraseCarries(text, Unescape(t.text), v);
    } else {
      var u := ValueOf(t.text);
      WordValue(t.text);
      if EndsInStar(u) { PrefixCarries(text, Front(u), v); } else { PhraseCarries(text, u, v); }
    }
  }

  // ---------------------------------------------------------------- a record for a set of atoms

  /** The texts of the atoms that look at `field`, one beside the other. */
  function Lay(ts: seq<Token>, field: string): string {
    if ts == [] then ""
    else if FieldOf(ts[0]) == field then Beside(Piece(ts[0]), Lay(ts[1..], field))
    else Lay(ts[1..], field)
  }

  function RecordOf(ts: seq<Token>): Doc {
    map f | f in (set t | t in ts :: FieldOf(t)) :: Lay(ts, f)
  }

  lemma {:induction false} LayOfNone(ts: seq<Token>, field: string)
    requires forall t :: t in ts ==> FieldOf(t) != field
    ensures Lay(ts, field) == ""
  {
    if ts != [] { LayOfNone(ts[1..], field); }
  }

  lemma RecordText(ts: seq<Token>, field: string)
    ensures TextOf(RecordOf(ts), field) == Lay(ts, field)
  {
    if field !in RecordOf(ts) {
      forall t | t in ts ensures FieldOf(t) != field {
        assert FieldOf(t) in (set u | u in ts :: FieldOf(u));
      }
      LayOfNone(ts, field);
    }
  }

  lemma {:induction false} LayMatches(ts: seq<Token>, t: Token)
    requires t in ts && IsAtom(t)
    ensures AtomMatches(Lay(ts, FieldOf(t)), t)
  {
    if ts[0] == t {
      PieceMatches(t);
      AtomMatchesBeside(Piece(t), Lay(ts[1..], FieldOf(t)), t);
    } else {
      LayMatches(ts[1..], t);
      if FieldOf(ts[0]) == FieldOf(t) { AtomMatchesBeside(Piece(ts[0]), Lay(ts[1..], FieldOf(t)), t); }
    }
  }

  lemma {:induction false} LayLacks(ts: seq<Token>, field: string, v: string)
    requires IsValue(v) && forall t :: t in ts ==> IsAtom(t) && !AtomAsks(t, field, v)
    ensures !Matches(Lay(ts, field), v)
  {
    if ts != [] {
      LayLacks(ts[1..], field, v);
      if FieldOf(ts[0]) == field && Matches(Lay(ts, field), v) {
        PieceMatches(ts[0]);
        MatchesInOne(Piece(ts[0]), Lay(ts[1..], field), v);
      }
    }
  }

  /** The atoms that do not ask for the filter. */
  function Others(ts: seq<Token>, field: string, v: string): (us: seq<Token>)
    ensures forall t :: t in us <==> t in ts && IsAtom(t) && !AtomAsks(t, field, v)
  {
    if ts == [] then []
    else if IsAtom(ts[0]) && !AtomAsks(ts[0], field, v) then [ts[0]] + Others(ts[1..], field, v)
    else Others(ts[1..], field, v)
  }

  // ---------------------------------------------------------------- what an expression asks for

  /** Whether the expression asks for `field:v`: one side of every AND, both sides of every OR. */
  predicate Asks(e: Expr, field: string, v: string) {
    match e
    case All => false
    case Leaf(t) => AtomAsks(t, field, v)
    case Not(_) => false
    case And(l, r) => Asks(l, field, v) || Asks(r, field, v)
    case Or(l, r) => Asks(l, field, v) && Asks(r, field, v)
  }

  /** No negation, and atoms of `ts` that ask for some text. */
  ghost predicate Affirms(e: Expr, ts: seq<Token>) {
    match e
    case All => true
    case Leaf(t) => t in ts && IsAtom(t)
    case Not(_) => false
    case And(l, r) => Affirms(l, ts) && Affirms(r, ts)
    case Or(l, r) => Affirms(l, ts) && Affirms(r, ts)
  }

  lemma {:induction false} AsksSoundly(e: Expr, ts: seq<Token>, field: string, v: string, doc: Doc)
    requires Affirms(e, ts) && IsValue(v)
    ensures Asks(e, field, v) && Eval(e, Facts(doc)) ==> Matches(TextOf(doc, field), v)
  {
    match e
    case All =>
    case Leaf(t) =>
      if Asks(e, field, v) && Eval(e, Facts(doc)) { AtomAsksSoundly(t, field, v, TextOf(doc, field)); }
    case And(l, r) => AsksSoundly(l, ts, field, v, doc); AsksSoundly(r, ts, field, v, doc);
    case Or(l, r) => AsksSoundly(l, ts, field, v, doc); AsksSoundly(r, ts, field, v, doc);
  }

  /** A record that the expression takes although it does not fit the filter. */
  lemma {:induction false} OthersHold(e: Expr, ts: seq<Token>, field: string, v: string)
    requires Affirms(e, ts) && !Asks(e, field, v)
    ensures Eval(e, Facts(RecordOf(Others(ts, field, v))))
  {
    match e
    case All =>
    case Leaf(t) =>
      var us := Others(ts, field, v);
      LayMatches(us, t);
      RecordText(us, FieldOf(t));
    case And(l, r) => OthersHold(l, ts, field, v); OthersHold(r, ts, field, v);
    case Or(l, r) => if Asks(l, field, v) { OthersHold(r, ts, field, v); } else { OthersHold(l, ts, field, v); }
  }

  /** Every record that an expression without negation takes fits `field:v` exactly when the
      expression asks for it. */
  lemma AsksExactly(e: Expr, ts: seq<Token>, field: string, v: string)
    requires Affirms(e, ts) && IsValue(v)
    ensures Asks(e, field, v) <==> forall doc: Doc :: Eval(e, Facts(doc)) ==> Matches(TextOf(doc, field), v)
  {
    if Asks(e, field, v) {
      forall doc: Doc | Eval(e, Facts(doc))
        ensures Matches(TextOf(doc, field), v)
      {
        AsksSoundly(e, ts, field, v, doc);
      }
    } else {
      var us := Others(ts, field, v);
      OthersHold(e, ts, field, v);
      LayLacks(us, field, v);
      RecordText(us, field);
    }
  }
}

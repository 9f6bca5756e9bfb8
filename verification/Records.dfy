/** What the atoms of a query ask of a record: LogsQL's phrase, prefix and any-value match. */
module Records {
  import opened Prelude
  import opened LogsQL

  type Doc = map<string, string>

  /** A character of a token of stored text. */
  predicate InToken(c: char) {
    IsTokenChar(c) || c as int >= 128
  }

  predicate IsToken(s: string) {
    s != "" && forall i :: 0 <= i < |s| ==> IsTokenChar(s[i])
  }

  /** `prefix` stands at position `i`, where it does not begin inside a token. */
  predicate BeginsAt(text: string, prefix: string, i: nat)
    requires prefix != ""
  {
    && i + |prefix| <= |text| && text[i..i + |prefix|] == prefix
    && (InToken(prefix[0]) && 0 < i ==> !InToken(text[i - 1]))
  }

  /** ... and does not end inside one either. */
  predicate OccursAt(text: string, phrase: string, i: nat)
    requires phrase != ""
  {
    && BeginsAt(text, phrase, i)
    && (InToken(Last(phrase)) && i + |phrase| < |text| ==> !InToken(text[i + |phrase|]))
  }

  /** LogsQL's phrase match: the phrase occurs, not inside a longer token. */
  predicate Occurs(text: string, phrase: string) {
    phrase != "" && exists i :: 0 <= i < |text| && OccursAt(text, phrase, i)
  }

  /** LogsQL's prefix match; the empty prefix matches any text that is not empty. */
  predicate HasPrefix(text: string, prefix: string) {
    if prefix == "" then text != "" else exists i :: 0 <= i < |text| && BeginsAt(text, prefix, i)
  }

  predicate EndsInStar(value: string) {
    value != "" && Last(value) == '*'
  }

  /** What a filter value asks of a text: `*` at its end makes it a prefix. */
  predicate Matches(text: string, value: string) {
    if EndsInStar(value) then HasPrefix(text, Front(value)) else Occurs(text, value)
  }

  /** The text a quoted phrase stands for. */
  function Unescape(s: string): string {
    if s == "" then ""
    else if s[0] == '\\' && |s| > 1 then [s[1]] + Unescape(s[2..])
    else [s[0]] + Unescape(s[1..])
  }

  /** The field an atom looks at: the one it names, else the message. */
  function FieldOf(t: Token): string {
    if t.Word? && Colon(t.text) < |t.text| then t.text[..Colon(t.text)] else "_msg"
  }

  function ValueOf(w: string): string {
    if Colon(w) < |w| then w[Colon(w) + 1..] else w
  }

  /** What an atom asks of the text of its field, which is empty when the field is absent. */
  predicate AtomMatches(text: string, t: Token) {
    match t
    case Word(w) => Matches(text, ValueOf(w))
    case Phrase(q) => if Unescape(q) == "" then text == "" else Occurs(text, Unescape(q))
    case _ => false
  }

  function TextOf(doc: Doc, field: string): string {
    if field in doc then doc[field] else ""
  }

  predicate Holds(doc: Doc, t: Token) {
    AtomMatches(TextOf(doc, FieldOf(t)), t)
  }

  ghost function Facts(doc: Doc): iset<Token> {
    iset t: Token | Holds(doc, t)
  }

  lemma EmptyMatchesNothing(v: string)
    ensures !Matches("", v)
  {
  }

  lemma FieldWordHolds(doc: Doc, field: string, value: string)
    requires ':' !in field
    ensures (Word(field + ":" + value) in Facts(doc)) <==> Matches(TextOf(doc, field), value)
  {
    ColonOf(field, value);
    var w := field + ":" + value;
    assert w[..|field|] == field && w[|field| + 1..] == value;
  }

  lemma BeginsAtStart(text: string, prefix: string, i: nat)
    requires IsToken(text) && prefix != "" && BeginsAt(text, prefix, i)
    ensures i == 0 && prefix <= text
  {
    assert prefix[0] == text[i];
    assert text[i..i + |prefix|] == prefix;
  }

  /** What a filter value asks of a text that is one token. */
  predicate Fits(text: string, value: string) {
    if EndsInStar(value) then Front(value) <= text else value == text
  }

  lemma OccursInToken(text: string, phrase: string)
    requires IsToken(text)
    ensures Occurs(text, phrase) <==> text == phrase
  {
    if Occurs(text, phrase) {
      var i :| 0 <= i < |text| && OccursAt(text, phrase, i);
      BeginsAtStart(text, phrase, i);
      assert Last(phrase) == text[|phrase| - 1];
    }
    if text == phrase {
      assert text[0..0 + |phrase|] == phrase;
      assert OccursAt(text, phrase, 0);
    }
  }

  lemma PrefixOfToken(text: string, prefix: string)
    requires IsToken(text)
    ensures HasPrefix(text, prefix) <==> prefix <= text
  {
    if prefix != "" {
      if HasPrefix(text, prefix) {
        var i :| 0 <= i < |text| && BeginsAt(text, prefix, i);
        BeginsAtStart(text, prefix, i);
      }
      if prefix <= text {
        assert text[0..0 + |prefix|] == prefix;
        assert BeginsAt(text, prefix, 0);
      }
    }
  }

  /** A token is matched by itself and by its beginnings, and by nothing else. */
  lemma TokenMatches(text: string, value: string)
    requires IsToken(text)
    ensures Matches(text, value) <==> Fits(text, value)
  {
    if EndsInStar(value) { PrefixOfToken(text, Front(value)); } else { OccursInToken(text, value); }
  }
}

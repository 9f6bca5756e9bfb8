/** The document an envelope is stored as, and which event queries find it again. */
module EventDocument {
  import opened Prelude
  import opened Envelopes
  import opened LogsQL
  import opened QueryBuilder
  import opened Records

  /** A normalized value: as Python's str renders it, and whether it is truthy. */
  datatype Value = Value(text: string, truthy: bool)

  /** `rendered` is str of the whole of `normalized`. */
  datatype Envelope = Envelope(
    id: string, timestamp: string, domain: Domain, protocol: string, sourceNe: string,
    direction: string, severity: Option<Severity>, traceId: Option<string>,
    normalized: map<string, Value>, rendered: string)

  const HEADER_NAMES: set<string> := {"domain", "severity", "protocol", "_time", "_msg", "source_ne",
                                      "envelope_id", "direction", "trace_id"}

  /** The header's entry under a name, when it has a non-null one. */
  function HeaderField(e: Envelope, name: string): Option<string> {
    if name == "domain" then Some(e.domain.Text())
    else if name == "severity" then if e.severity.Some? then Some(e.severity.value.Text()) else None
    else if name == "protocol" then Some(e.protocol)
    else OtherField(e, name)
  }

  function OtherField(e: Envelope, name: string): Option<string> {
    if name == "_time" then Some(e.timestamp)
    else if name == "_msg" then
      Some(if "message" in e.normalized && e.normalized["message"].truthy then e.normalized["message"].text else e.rendered)
    else if name == "source_ne" then Some(e.sourceNe)
    else if name == "envelope_id" then Some(e.id)
    else if name == "direction" then Some(e.direction)
    else if name == "trace_id" then Some(if e.traceId.Some? then e.traceId.value else "")
    else None
  }

  /** A normalized field takes the place of a header field of the same name. */
  function Stored(e: Envelope, name: string): Option<string> {
    if name in e.normalized then Some(e.normalized[name].text) else HeaderField(e, name)
  }

  /** The stored document: header and normalized fields, without nulls. */
  function Document(e: Envelope): Doc {
    map k | k in HEADER_NAMES + e.normalized.Keys && Stored(e, k).Some? :: Stored(e, k).value
  }

  // ---------------------------------------------------------------- which queries find it

  const FILTERABLE: set<string> := {"domain", "severity", "protocol"}

  predicate StoredHas(e: Envelope, field: string, value: string) {
    Stored(e, field).Some? && Matches(Stored(e, field).value, value)
  }

  lemma StoredIsDocument(e: Envelope, field: string, phrase: string)
    requires field in FILTERABLE
    ensures Matches(TextOf(Document(e), field), phrase) <==> StoredHas(e, field, phrase)
  {
    EmptyMatchesNothing(phrase);
  }

  /** Every requested filter matches the stored field it names. */
  predicate FiltersFitStored(e: Envelope, p: Params) {
    && (p.domain != "" && Upper(p.domain) != "ALL" ==> StoredHas(e, "domain", Upper(p.domain)))
    && (p.severity != "" ==> StoredHas(e, "severity", Upper(p.severity)))
    && (p.protocol != "" ==> StoredHas(e, "protocol", Lower(p.protocol)))
  }

  lemma FilterHolds(e: Envelope, field: string, value: string)
    requires field in FILTERABLE
    ensures Word(field + ":" + value) in Facts(Document(e)) <==> StoredHas(e, field, value)
  {
    assert ':' !in "domain" && ':' !in "severity" && ':' !in "protocol";
    FieldWordHolds(Document(e), field, value);
    StoredIsDocument(e, field, value);
  }

  /** A filter-only query finds a stored envelope exactly when its filters fit the stored fields. */
  lemma FilterQueryFinds(e: Envelope, p: Params)
    requires SingleWords(p) && Blank(p.q)
    ensures Meaning(EventsQuery(p), Facts(Document(e))) == Some(FiltersFitStored(e, p))
  {
    EventsQueryMeans(p, Facts(Document(e)));
    FieldFiltersHold(e, p);
  }

  lemma FieldFiltersHold(e: Envelope, p: Params)
    ensures AllHold(FieldFilters(p), Facts(Document(e))) <==> FiltersFitStored(e, p)
  {
    FieldsHold(p, Facts(Document(e)));
    FieldNames();
    FilterHolds(e, "domain", Upper(p.domain));
    FilterHolds(e, "severity", Upper(p.severity));
    FilterHolds(e, "protocol", Lower(p.protocol));
  }

  /** The normalized fields repeat the header where they share a filterable key with it. */
  predicate Agrees(e: Envelope) {
    forall k :: k in FILTERABLE && k in e.normalized ==> HeaderField(e, k) == Some(e.normalized[k].text)
  }

  /** The requested filters match the header: a domain and a severity are one token, so theirs
      name it, its beginning and `*`, or `*`. */
  predicate FiltersFitHeader(e: Envelope, p: Params) {
    && (p.domain != "" && Upper(p.domain) != "ALL" ==> Fits(e.domain.Text(), Upper(p.domain)))
    && (p.severity != "" ==> e.severity.Some? && Fits(e.severity.value.Text(), Upper(p.severity)))
    && (p.protocol != "" ==> Matches(e.protocol, Lower(p.protocol)))
  }

  lemma DomainFits(e: Envelope, value: string)
    requires Agrees(e)
    ensures StoredHas(e, "domain", value) <==> Fits(e.domain.Text(), value)
  {
    assert "domain" in FILTERABLE && IsToken(e.domain.Text());
    TokenMatches(e.domain.Text(), value);
  }

  lemma ProtocolFits(e: Envelope, value: string)
    requires Agrees(e)
    ensures StoredHas(e, "protocol", value) <==> Matches(e.protocol, value)
  {
    assert "protocol" in FILTERABLE;
  }

  lemma SeverityFits(e: Envelope, value: string)
    requires Agrees(e)
    ensures StoredHas(e, "severity", value) <==> (e.severity.Some? && Fits(e.severity.value.Text(), value))
  {
    assert "severity" in FILTERABLE;
    if e.severity.Some? {
      assert IsToken(e.severity.value.Text());
      TokenMatches(e.severity.value.Text(), value);
    }
  }

  /** An envelope that agrees with its header is found by exactly the filters that fit it. */
  lemma AgreeingEnvelopeFound(e: Envelope, p: Params)
    requires SingleWords(p) && Blank(p.q) && Agrees(e)
    ensures Meaning(EventsQuery(p), Facts(Document(e))) == Some(FiltersFitHeader(e, p))
    ensures IsToken(e.protocol) ==> (Matches(e.protocol, Lower(p.protocol)) <==> Fits(e.protocol, Lower(p.protocol)))
  {
    FilterQueryFinds(e, p);
    DomainFits(e, Upper(p.domain));
    ProtocolFits(e, Lower(p.protocol));
    SeverityFits(e, Upper(p.severity));
    if IsToken(e.protocol) { TokenMatches(e.protocol, Lower(p.protocol)); }
  }

  // ---------------------------------------------------------------- the case of a protocol

  /** The query for nothing but this protocol. */
  function ProtocolOnly(value: string): Params {
    Params("", "", value, "")
  }

  ghost predicate FindsByProtocol(e: Envelope, value: string) {
    Meaning(EventsQuery(ProtocolOnly(value)), Facts(Document(e))) == Some(true)
  }

  lemma ProtocolFinds(e: Envelope, value: string)
    requires Agrees(e) && IsValue(value)
    ensures FindsByProtocol(e, value) <==> Matches(e.protocol, Lower(value))
  {
    ValueChars(value);
    AgreeingEnvelopeFound(e, ProtocolOnly(value));
  }

  lemma NameIsWhole(name: string)
    requires IsName(name)
    ensures IsValue(name) && |Lower(name)| == |name| && Lower(name) != "" && !EndsInStar(Lower(name))
  {
    assert Last(Lower(name)) == LowerChar(Last(name)) && Last(name) != '*';
  }

  lemma LowerTwice(s: string)
    ensures Lower(Lower(s)) == Lower(s)
  {
    assert forall i :: 0 <= i < |s| ==> Lower(Lower(s))[i] == Lower(s)[i];
  }

  /** A text has no other phrase of its own length in it. */
  lemma OccursAsWhole(text: string, phrase: string)
    requires phrase != "" && |phrase| == |text|
    ensures Occurs(text, phrase) <==> text == phrase
  {
    if text == phrase {
      assert text[0..0 + |phrase|] == phrase;
      assert OccursAt(text, phrase, 0);
    }
    if Occurs(text, phrase) {
      var i :| 0 <= i < |text| && OccursAt(text, phrase, i);
      assert text[0..|text|] == text;
    }
  }

  lemma TokenNameFinds(e: Envelope, name: string)
    requires Agrees(e) && IsToken(e.protocol) && IsName(name)
    ensures FindsByProtocol(e, name) <==> Lower(name) == e.protocol
  {
    NameIsWhole(name);
    ProtocolFinds(e, name);
    TokenMatches(e.protocol, Lower(name));
  }

  /** Protocols are stored as given but asked for in lower case: the envelope is found under its own
      protocol exactly when that is lower case, and one whose protocol is a single token is then
      found under no other whole protocol either ... */
  lemma ProtocolFilterFindsLowerCase(e: Envelope)
    requires Agrees(e) && IsName(e.protocol)
    ensures FindsByProtocol(e, e.protocol) <==> Lower(e.protocol) == e.protocol
    ensures IsToken(e.protocol) ==>
      ((exists name :: IsName(name) && FindsByProtocol(e, name)) <==> Lower(e.protocol) == e.protocol)
  {
    NameIsWhole(e.protocol);
    ProtocolFinds(e, e.protocol);
    OccursAsWhole(e.protocol, Lower(e.protocol));
    if IsToken(e.protocol) && exists name :: IsName(name) && FindsByProtocol(e, name) {
      var name :| IsName(name) && FindsByProtocol(e, name);
      TokenNameFinds(e, name);
      LowerTwice(name);
    }
  }

  lemma PrefixInLowerCase(prefix: string)
    requires IsName(prefix)
    ensures IsValue(prefix + "*") && EndsInStar(Lower(prefix + "*")) && Front(Lower(prefix + "*")) == Lower(prefix)
  {
    var value := prefix + "*";
    assert Front(value) == prefix && Last(value) == '*';
    assert Front(Lower(value)) == Lower(prefix) && Last(Lower(value)) == '*';
  }

  /** ... a beginning of it finds the envelope exactly when some word of the protocol begins with that
      beginning in lower case, which in a single token is when the beginning is lower case ... */
  lemma ProtocolPrefixFindsLowerCase(e: Envelope, n: nat)
    requires Agrees(e) && 1 <= n <= |e.protocol| && IsName(e.protocol[..n])
    ensures FindsByProtocol(e, e.protocol[..n] + "*") <==> HasPrefix(e.protocol, Lower(e.protocol[..n]))
    ensures IsToken(e.protocol) ==>
      (FindsByProtocol(e, e.protocol[..n] + "*") <==> Lower(e.protocol[..n]) == e.protocol[..n])
  {
    var prefix := e.protocol[..n];
    PrefixInLowerCase(prefix);
    ProtocolFinds(e, prefix + "*");
    if IsToken(e.protocol) {
      PrefixOfToken(e.protocol, Lower(prefix));
      assert Lower(prefix) <= e.protocol <==> Lower(prefix) == prefix;
    }
  }

  /** ... and `*` finds it whenever it has a protocol at all. */
  lemma AnyProtocolFinds(e: Envelope)
    requires Agrees(e)
    ensures FindsByProtocol(e, "*") <==> e.protocol != ""
  {
    ProtocolFinds(e, "*");
    assert Lower("*") == "*" && Front("*") == "";
  }

  // ---------------------------------------------------------------- the names of domains and severities

  ghost predicate Finds(e: Envelope, domain: string, severity: string) {
    Meaning(EventsQuery(Params(domain, severity, "", "")), Facts(Document(e))) == Some(true)
  }

  lemma NamesFind(e: Envelope, domain: string, severity: string)
    requires Agrees(e) && (domain == "" || IsName(domain)) && (severity == "" || IsName(severity))
    ensures Finds(e, domain, severity) <==>
      && (domain != "" && Upper(domain) != "ALL" ==> e.domain.Text() == Upper(domain))
      && (severity != "" ==> e.severity.Some? && e.severity.value.Text() == Upper(severity))
  {
    if domain != "" { assert Last(Upper(domain)) == UpperChar(Last(domain)) && Last(domain) != '*'; }
    if severity != "" { assert Last(Upper(severity)) == UpperChar(Last(severity)) && Last(severity) != '*'; }
    AgreeingEnvelopeFound(e, Params(domain, severity, "", ""));
  }

  lemma AreNames()
    ensures Upper("FM") == "FM" && Upper("PM") == "PM" && Upper("LOG") == "LOG" && Upper("ALL") == "ALL"
    ensures IsName("FM") && IsName("PM") && IsName("LOG") && IsName("ALL")
  {
  }

  /** The domain filter tells the three domains apart, and ALL asks for none of them. */
  lemma DomainsFind(e: Envelope)
    requires Agrees(e)
    ensures Finds(e, "FM", "") <==> e.domain == FM
    ensures Finds(e, "PM", "") <==> e.domain == PM
    ensures Finds(e, "LOG", "") <==> e.domain == LOG
    ensures Finds(e, "ALL", "") && Finds(e, "", "")
  {
    AreNames();
    NamesFind(e, "FM", "");
    NamesFind(e, "PM", "");
    NamesFind(e, "LOG", "");
    NamesFind(e, "ALL", "");
    NamesFind(e, "", "");
  }

  lemma SeverityName(v: Severity)
    ensures |v.Text()| >= 5 && Upper(v.Text()) == v.Text() && IsName(v.Text())
  {
  }

  lemma SeverityTextsDiffer(v: Severity, w: Severity)
    requires v.Text() == w.Text()
    ensures v == w
  {
    assert v.Text()[0] == w.Text()[0] && v.Text()[1] == w.Text()[1];
  }

  lemma SeverityFinds(e: Envelope, v: Severity)
    requires Agrees(e)
    ensures Finds(e, "", v.Text()) <==> e.severity == Some(v)
  {
    SeverityName(v);
    NamesFind(e, "", v.Text());
    if e.severity.Some? && e.severity.value.Text() == v.Text() { SeverityTextsDiffer(e.severity.value, v); }
  }

  lemma SeverityTexts()
    ensures CRITICAL.Text() == "CRITICAL" && MAJOR.Text() == "MAJOR" && MINOR.Text() == "MINOR"
    ensures WARNING.Text() == "WARNING" && CLEARED.Text() == "CLEARED"
  {
  }

  /** The severity filter tells the five severities apart. */
  lemma SeveritiesFind(e: Envelope)
    requires Agrees(e)
    ensures Finds(e, "", "CRITICAL") <==> e.severity == Some(CRITICAL)
    ensures Finds(e, "", "MAJOR") <==> e.severity == Some(MAJOR)
    ensures Finds(e, "", "MINOR") <==> e.severity == Some(MINOR)
    ensures Finds(e, "", "WARNING") <==> e.severity == Some(WARNING)
    ensures Finds(e, "", "CLEARED") <==> e.severity == Some(CLEARED)
  {
    SeverityTexts();
    SeverityFinds(e, CRITICAL);
    SeverityFinds(e, MAJOR);
    SeverityFinds(e, MINOR);
    SeverityFinds(e, WARNING);
    SeverityFinds(e, CLEARED);
  }

  // ---------------------------------------------------------------- the rest of the document

  /** The request for nothing but the text `field:value`. */
  ghost predicate FindsByText(e: Envelope, field: string, value: string) {
    Meaning(EventsQuery(Params("", "", "", field + ":" + value)), Facts(Document(e))) == Some(true)
  }

  lemma OneWordMeans(w: string, facts: iset<Token>)
    requires IsOperand(w)
    ensures Meaning(w, facts) == Some(Word(w) in facts)
  {
    LexWord(w);
    LastOperand(w);
  }

  lemma WordIsNotBlank(w: string)
    requires IsOperand(w)
    ensures !Blank(w)
  {
    WordChars(w);
  }

  lemma FieldTextMeans(e: Envelope, field: string, value: string)
    requires IsField(field) && IsValue(value)
    ensures FindsByText(e, field, value) <==> Matches(TextOf(Document(e), field), value)
  {
    var w := field + ":" + value;
    assert ':' !in field && ':' in w;
    ColonWord(field, value);
    HasColon(w);
    assert IsOperand(w);
    TextQueryMeans(w, Facts(Document(e)));
    FieldWordHolds(Document(e), field, value);
  }

  lemma TextQueryMeans(w: string, facts: iset<Token>)
    requires IsOperand(w)
    ensures Meaning(EventsQuery(Params("", "", "", w)), facts) == Some(Word(w) in facts)
  {
    OneWordMeans(w, facts);
    WordIsNotBlank(w);
    EventsQueryMeans(Params("", "", "", w), facts);
  }

  /** The text of a field that is no filter's: a normalized field's own, else the header's entry, and for
      the message the normalized message when it is truthy and the whole of the normalized fields
      otherwise. */
  lemma DocumentText(e: Envelope, field: string)
    ensures field in e.normalized ==> TextOf(Document(e), field) == e.normalized[field].text
    ensures field !in e.normalized ==>
      && (field == "_time" ==> TextOf(Document(e), field) == e.timestamp)
      && (field == "source_ne" ==> TextOf(Document(e), field) == e.sourceNe)
      && (field == "envelope_id" ==> TextOf(Document(e), field) == e.id)
      && (field == "direction" ==> TextOf(Document(e), field) == e.direction)
      && (field == "trace_id" ==> TextOf(Document(e), field) == if e.traceId.Some? then e.traceId.value else "")
      && (field == "_msg" ==>
            TextOf(Document(e), field) == if "message" in e.normalized && e.normalized["message"].truthy
                                          then e.normalized["message"].text else e.rendered)
  {
  }

  /** Text that names a field finds the envelope exactly when it matches that text. */
  lemma TextFinds(e: Envelope, field: string, value: string)
    requires IsField(field) && IsValue(value)
    ensures field in e.normalized ==> (FindsByText(e, field, value) <==> Matches(e.normalized[field].text, value))
    ensures field !in e.normalized ==>
      && (field == "source_ne" ==> (FindsByText(e, field, value) <==> Matches(e.sourceNe, value)))
      && (field == "envelope_id" ==> (FindsByText(e, field, value) <==> Matches(e.id, value)))
      && (field == "direction" ==> (FindsByText(e, field, value) <==> Matches(e.direction, value)))
  {
    FieldTextMeans(e, field, value);
    DocumentText(e, field);
  }

  // ---------------------------------------------------------------- every record can be stored

  /** The envelope whose normalized fields are the record's, and empty where the record has no field
      of a header's name. */
  function EnvelopeFor(doc: Doc, id: string, timestamp: string): Envelope {
    Envelope(id, timestamp, FM, "", "", "", None, None,
             map k | k in doc.Keys + HEADER_NAMES - {"_time"} :: Value(TextOf(doc, k), TextOf(doc, k) != ""), "")
  }

  lemma SameTextsStored(doc: Doc, id: string, timestamp: string, field: string)
    requires field != "_time"
    ensures TextOf(Document(EnvelopeFor(doc, id, timestamp)), field) == TextOf(doc, field)
  {
  }

  lemma WordsSkipTime(t: Token)
    requires t.Word? ==> IsWord(t.text)
    ensures FieldOf(t) != "_time"
  {
    if t.Word? && Colon(t.text) < |t.text| {
      HasColon(t.text);
      assert IsFieldValue(t.text);
    }
  }

  /** For every record at all there is an envelope whose document no query of the fragment tells
      from it, so what holds of all records holds of all that are stored, and the other way round. */
  lemma AnyRecordIsStored(doc: Doc, id: string, timestamp: string, query: string)
    ensures Meaning(query, Facts(Document(EnvelopeFor(doc, id, timestamp)))) == Meaning(query, Facts(doc))
  {
    if WellFormed(query) {
      var (ts, stored) := (Lex(query).value, Document(EnvelopeFor(doc, id, timestamp)));
      WordsAreWords(query);
      ParseAtoms(ts, 2);
      forall t | t in ts
        ensures t in Facts(stored) <==> t in Facts(doc)
      {
        WordsSkipTime(t);
        SameTextsStored(doc, id, timestamp, FieldOf(t));
      }
      EvalIgnores(Parse(query).value, ts, Facts(stored), Facts(doc));
    }
  }

  // ---------------------------------------------------------------- a normalized domain

  /** A normalized field of the same name takes the header's place: an envelope whose normalized
      domain is another token is not found under its own domain. */
  lemma OverriddenDomainIsLost(e: Envelope, p: Params)
    requires "domain" in e.normalized && IsToken(e.normalized["domain"].text)
    requires e.normalized["domain"].text != e.domain.Text()
    requires SingleWords(p) && Blank(p.q) && Upper(p.domain) == e.domain.Text()
    ensures Meaning(EventsQuery(p), Facts(Document(e))) == Some(false)
  {
    FilterQueryFinds(e, p);
    TokenMatches(e.normalized["domain"].text, Upper(p.domain));
    DomainIsAsked(e.domain, p.domain);
  }

  lemma DomainIsAsked(d: Domain, domain: string)
    requires Upper(domain) == d.Text()
    ensures domain != "" && Upper(domain) != "ALL" && !EndsInStar(Upper(domain))
  {
    assert |d.Text()| == 2 || d.Text() == "LOG";
  }
}

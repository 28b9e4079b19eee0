/** The ANP message envelope: how it travels as JSON text, and what its signature covers. */
module Anp {
  import opened Prelude
  import opened Json
  import opened Canonical

  datatype Header = Header(
    fromDid: string, toDid: string, msgType: string, id: string, created: string, signature: Option<string>)

  datatype Envelope = Envelope(header: Header, body: Json)

  datatype EnvelopeError = JsonError | UnsignedEnvelope

  // ---------------------------------------------------------------- text form

  /** An unsigned header has no signature field at all. */
  function HeaderToJson(h: Header): Json {
    Obj([Field("from_did", Str(h.fromDid)), Field("to_did", Str(h.toDid)), Field("type", Str(h.msgType)),
         Field("id", Str(h.id)), Field("created", Str(h.created))]
        + if h.signature.Some? then [Field("signature", Str(h.signature.value))] else [])
  }

  function ToJson(e: Envelope): Json {
    Obj([Field("header", HeaderToJson(e.header)), Field("body", e.body)])
  }

  function ToText(e: Envelope): string {
    Print(ToJson(e))
  }

  /** A required string field. */
  function GetString(v: Json, key: string): Option<string> {
    var f := Get(v, key);
    if f.Some? && f.value.Str? then Some(f.value.s) else None
  }

  function HeaderFromJson(v: Json): Option<Header> {
    var from, to, ty := GetString(v, "from_did"), GetString(v, "to_did"), GetString(v, "type");
    var id, created, sig := GetString(v, "id"), GetString(v, "created"), Get(v, "signature");
    if from.None? || to.None? || ty.None? || id.None? || created.None? then None
    else if sig.None? || sig.value.Null? then
      Some(Header(from.value, to.value, ty.value, id.value, created.value, None))
    else if sig.value.Str? then
      Some(Header(from.value, to.value, ty.value, id.value, created.value, Some(sig.value.s)))
    else None
  }

  function FromJson(v: Json): Result<Envelope, EnvelopeError> {
    var h, b := Get(v, "header"), Get(v, "body");
    if h.None? || b.None? then Err(JsonError)
    else
      var header := HeaderFromJson(h.value);
      if header.None? then Err(JsonError) else Ok(Envelope(header.value, b.value))
  }

  function FromText(t: string): Result<Envelope, EnvelopeError> {
    var v := Parse(t);
    if v.None? then Err(JsonError) else FromJson(v.value)
  }

  lemma {:induction false} HeaderRoundTrip(h: Header)
    ensures HeaderFromJson(HeaderToJson(h)) == Some(h)
    ensures Valid(HeaderToJson(h))
  {
    var fields := HeaderToJson(h).fields;
    assert |fields| == if h.signature.Some? then 6 else 5;
    assert fields[0].key == "from_did" && fields[1].key == "to_did" && fields[2].key == "type";
    assert fields[3].key == "id" && fields[4].key == "created";
    LookupAt(fields, 0);
    LookupAt(fields, 1);
    LookupAt(fields, 2);
    LookupAt(fields, 3);
    LookupAt(fields, 4);
    if h.signature.Some? {
      assert fields[5].key == "signature";
      LookupAt(fields, 5);
    } else {
      LookupMissing(fields, "signature");
    }
  }

  lemma {:induction false} LookupAt(fields: seq<Field>, i: nat)
    requires i < |fields| && forall j :: 0 <= j < i ==> fields[j].key != fields[i].key
    ensures Lookup(fields, fields[i].key) == Some(fields[i].value)
  {
    if i > 0 {
      LookupAt(fields[1..], i - 1);
    }
  }

  lemma {:induction false} LookupMissing(fields: seq<Field>, key: string)
    requires forall j :: 0 <= j < |fields| ==> fields[j].key != key
    ensures Lookup(fields, key) == None
  {
    if fields != [] {
      LookupMissing(fields[1..], key);
    }
  }

  /** An envelope reads back from its own text, signed or not. */
  lemma TextRoundTrip(e: Envelope)
    requires Valid(e.body)
    ensures FromText(ToText(e)) == Ok(e)
  {
    HeaderRoundTrip(e.header);
    var fields := ToJson(e).fields;
    LookupAt(fields, 0);
    LookupAt(fields, 1);
    RoundTrip(ToJson(e));
  }

  // ---------------------------------------------------------------- signing

  /** A scheme that accepts what it signed, whatever the text. */
  ghost predicate Accepts(sign: string -> string, verify: (string, string) -> bool) {
    forall text :: verify(text, sign(text))
  }

  /** A scheme that accepts a signature for no other text than the one signed. */
  ghost predicate Binds(sign: string -> string, verify: (string, string) -> bool) {
    forall text, other :: verify(other, sign(text)) ==> other == text
  }

  /** Verification recomputes the canonical text of the body it holds. */
  function Verify(e: Envelope, verify: (string, string) -> bool): Result<bool, EnvelopeError> {
    if e.header.signature.None? then Err(UnsignedEnvelope)
    else Ok(verify(CanonicalText(e.body), e.header.signature.value))
  }

  function Signed(e: Envelope, sign: string -> string): Envelope {
    e.(header := e.header.(signature := Some(sign(CanonicalText(e.body)))))
  }

  /** The envelope object whose header is filled in place by signing. */
  class Message {
    var header: Header
    var body: Json

    constructor (header: Header, body: Json)
      ensures Contents() == Envelope(header, body)
    {
      this.header, this.body := header, body;
    }

    function Contents(): Envelope
      reads this
    {
      Envelope(header, body)
    }

    method Sign(sign: string -> string)
      modifies this`header
      ensures Contents() == Signed(old(Contents()), sign)
    {
      var digest := CanonicalText(body);
      header := header.(signature := Some(sign(digest)));
    }
  }

  /** A signed envelope still verifies after travelling as text and after any reordering of the keys of its
      body; with a binding scheme a body that means anything else is refused. */
  lemma SignatureCoversMeaning(e: Envelope, body: Json, sign: string -> string, verify: (string, string) -> bool)
    requires Valid(e.body) && Valid(body) && Accepts(sign, verify) && Binds(sign, verify)
    ensures FromText(ToText(Signed(e, sign))) == Ok(Signed(e, sign))
    ensures Verify(Signed(e, sign).(body := body), verify) == Ok(MeaningOf(body) == MeaningOf(e.body))
  {
    TextRoundTrip(Signed(e, sign));
    CanonicalTextIdentifies(e.body, body);
  }
}

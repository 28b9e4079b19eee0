/** The text of a message envelope, member by member. */
module AnpText {
  import opened Prelude
  import opened Json
  import JsonText
  import opened Anp

  /** One member of an object, for a key that needs no escape. */
  function MemberText(key: string, value: string): string {
    "\"" + key + "\":" + value
  }

  predicate PlainKey(key: string) {
    forall i :: 0 <= i < |key| ==> key[i] >= ' ' && key[i] != '"' && key[i] != '\\'
  }

  lemma FieldText(key: string, v: Json)
    requires PlainKey(key)
    ensures PrintField(Field(key, v)) == MemberText(key, Print(v))
  {
    JsonText.PlainTextStays(key);
    assert "\"" + key + "\"" + ":" + Print(v) == "\"" + key + "\":" + Print(v);
  }

  lemma LastField(f: Field)
    ensures PrintFields([f]) == PrintField(f)
  {
  }

  lemma FirstField(f: Field, rest: seq<Field>)
    requires rest != []
    ensures PrintFields([f] + rest) == PrintField(f) + "," + PrintFields(rest)
  {
    assert ([f] + rest)[1..] == rest;
  }

  /** The literals of JSON, and how arrays and objects of two are put together. */
  lemma CompactForm(v: Json, w: Json, key: string, other: string)
    requires PlainKey(key) && PlainKey(other)
    ensures Print(Null) == "null" && Print(Bool(true)) == "true" && Print(Bool(false)) == "false"
    ensures Print(Arr([])) == "[]" && Print(Obj([])) == "{}"
    ensures Print(Arr([v, w])) == "[" + (Print(v) + "," + Print(w)) + "]"
    ensures Print(Obj([Field(key, v), Field(other, w)]))
      == "{" + (MemberText(key, Print(v)) + "," + MemberText(other, Print(w))) + "}"
  {
    assert [v, w][1..] == [w];
    assert PrintItems([w]) == Print(w);
    FieldText(key, v);
    FieldText(other, w);
    assert [Field(key, v), Field(other, w)] == [Field(key, v)] + [Field(other, w)];
    FirstField(Field(key, v), [Field(other, w)]);
    LastField(Field(other, w));
  }

  lemma HeaderKeysArePlain()
    ensures PlainKey("from_did") && PlainKey("to_did") && PlainKey("type") && PlainKey("id") && PlainKey("created")
    ensures PlainKey("signature") && PlainKey("header") && PlainKey("body")
  {
  }

  /** The members of a header behind its first four. */
  function TailFields(h: Header): seq<Field> {
    [Field("created", Str(h.created))] + if h.signature.Some? then [Field("signature", Str(h.signature.value))] else []
  }

  lemma TailText(h: Header)
    ensures PrintFields(TailFields(h)) == MemberText("created", Quote(h.created))
      + if h.signature.Some? then "," + MemberText("signature", Quote(h.signature.value)) else ""
  {
    HeaderKeysArePlain();
    var created := Field("created", Str(h.created));
    FieldText("created", Str(h.created));
    if h.signature.Some? {
      var signature := Field("signature", Str(h.signature.value));
      FieldText("signature", Str(h.signature.value));
      FirstField(created, [signature]);
      LastField(signature);
    } else {
      assert [created] + [] == [created];
      LastField(created);
    }
  }

  /** The text of a header: its five texts under their names, in this order, and the signature behind them if there
      is one. */
  lemma HeaderText(h: Header)
    ensures Print(HeaderToJson(h)) ==
      "{" + (MemberText("from_did", Quote(h.fromDid)) + "," + (MemberText("to_did", Quote(h.toDid)) + ","
          + (MemberText("type", Quote(h.msgType)) + "," + (MemberText("id", Quote(h.id)) + ","
          + (MemberText("created", Quote(h.created))
          + (if h.signature.Some? then "," + MemberText("signature", Quote(h.signature.value)) else "")))))) + "}"
  {
    HeaderKeysArePlain();
    var a, b := Field("from_did", Str(h.fromDid)), Field("to_did", Str(h.toDid));
    var c, d := Field("type", Str(h.msgType)), Field("id", Str(h.id));
    var tail := TailFields(h);
    assert HeaderToJson(h).fields == [a] + ([b] + ([c] + ([d] + tail)));
    FirstField(a, [b] + ([c] + ([d] + tail)));
    FirstField(b, [c] + ([d] + tail));
    FirstField(c, [d] + tail);
    FirstField(d, tail);
    FieldText("from_did", Str(h.fromDid));
    FieldText("to_did", Str(h.toDid));
    FieldText("type", Str(h.msgType));
    FieldText("id", Str(h.id));
    TailText(h);
  }

  /** The text of an envelope: header and body under their names, in this order. */
  lemma EnvelopeText(e: Envelope)
    ensures ToText(e)
      == "{" + (MemberText("header", Print(HeaderToJson(e.header))) + "," + MemberText("body", Print(e.body))) + "}"
  {
    HeaderKeysArePlain();
    CompactForm(HeaderToJson(e.header), e.body, "header", "body");
  }
}

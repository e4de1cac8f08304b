/** `normalize_response`: the request id is dropped, links to the response's own
    receipt are made anonymous, then generated identifiers are removed. */
module ReceiptLinks {
  import opened Wrappers
  import opened Text
  import opened Json
  import opened JsonCodec
  import opened GeneratedKeys

  /** `Value::get` with a key, through an optional value. */
  function Member(v: Option<Value>, key: string): Option<Value> {
    if v.Some? && v.value.Obj? then Get(v.value.fields, key) else None
  }

  function AsStr(v: Option<Value>): Option<string> {
    if v.Some? && v.value.Str? then Some(v.value.text) else None
  }

  /** Replaces the value of an existing entry. */
  function SetMember(v: Value, key: string, x: Value): Value {
    if v.Obj? && Find(v.fields, key).Some? then Obj(v.fields[Find(v.fields, key).value := Field(key, x)]) else v
  }

  predicate IsLowerHex(c: char) {
    '0' <= c <= '9' || 'a' <= c <= 'f'
  }

  /** A native receipt id: `r` and 48 lower-case hexadecimal digits. */
  predicate NativeId(id: string) {
    ByteLength(id) == 49 && id != [] && id[0] == 'r' && forall i :: 1 <= i < |id| ==> IsLowerHex(id[i])
  }

  const LINK_PREFIX := "leantoken://receipt/v1/"
  const GENERATED_ID := "<generated-receipt>"
  const GENERATED_LINK := LINK_PREFIX + GENERATED_ID

  function StructuredReceipt(response: Value): Option<Value> {
    Member(Member(Member(Member(Some(response), "result"), "structuredContent"), "meta"), "receipt_id")
  }

  function ContentOf(response: Value): Option<seq<Value>> {
    match Member(Member(Some(response), "result"), "content")
    case Some(Arr(blocks)) => Some(blocks)
    case _ => None
  }

  function WithContent(response: Value, blocks: seq<Value>): Value {
    match Member(Some(response), "result")
    case Some(result) => SetMember(response, "result", SetMember(result, "content", Arr(blocks)))
    case None => response
  }

  /** The payload a text block carries as JSON text. */
  function Payload(c: Codec, block: Value): Option<Value> {
    if AsStr(Member(Some(block), "type")) != Some("text") then None
    else
      var text :- AsStr(Member(Some(block), "text"));
      c.decode(text)
  }

  function PayloadId(c: Codec, block: Value): Option<string> {
    AsStr(Member(Member(Payload(c, block), "meta"), "receipt_id"))
  }

  /** The receipt id the response settles on, or a conflict that ends it. */
  datatype Identity = Conflict | Settled(id: Option<string>)

  function PayloadIdentity(c: Codec, blocks: seq<Value>, expected: Option<string>): Identity {
    if blocks == [] then Settled(expected)
    else match PayloadId(c, blocks[0])
      case None => PayloadIdentity(c, blocks[1..], expected)
      case Some(id) =>
        if ByteLength(id) != 49 || (expected.Some? && expected.value != id) then Conflict
        else PayloadIdentity(c, blocks[1..], Some(id))
  }

  function StructuredIdentity(response: Value): Identity {
    match StructuredReceipt(response)
    case Some(Str(id)) => if ByteLength(id) == 49 then Settled(Some(id)) else Conflict
    case Some(_) => Conflict
    case None => Settled(None)
  }

  function ResponseIdentity(c: Codec, response: Value): Identity {
    match StructuredIdentity(response)
    case Conflict => Conflict
    case Settled(expected) =>
      match ContentOf(response)
      case None => Conflict
      case Some(blocks) => PayloadIdentity(c, blocks, expected)
  }

  /** A receipt link whose URI names `id`. */
  predicate LinksTo(block: Value, id: string) {
    AsStr(Member(Some(block), "type")) == Some("resource_link")
    && AsStr(Member(Some(block), "name")) == Some("retrieval_receipt")
    && AsStr(Member(Some(block), "uri")) == Some(LINK_PREFIX + id)
  }

  function Anonymised(block: Value, id: string): Value {
    if LinksTo(block, id) && NativeId(id) then SetMember(block, "uri", Str(GENERATED_LINK)) else block
  }

  function AnonymisedAll(blocks: seq<Value>, id: string): (r: seq<Value>)
    ensures |r| == |blocks| && forall i :: 0 <= i < |r| ==> r[i] == Anonymised(blocks[i], id)
  {
    seq(|blocks|, i requires 0 <= i < |blocks| => Anonymised(blocks[i], id))
  }

  function NormalizeLinks(c: Codec, response: Value): Value {
    match ResponseIdentity(c, response)
    case Settled(Some(id)) => WithContent(response, AnonymisedAll(ContentOf(response).value, id))
    case _ => response
  }

  function WithoutRequestId(response: Value): Value {
    if response.Obj? then Obj(DropKeys(response.fields, {"id"})) else response
  }

  function NormalizeResponse(c: Codec, response: Value): Value
    requires Lawful(c)
  {
    Strip(c, NormalizeLinks(c, WithoutRequestId(response)))
  }

  // ---- the source's loops ----

  /** The first loop of `normalize_native_receipt_links`: every text payload must
      agree on one id. */
  method SettlePayloads(c: Codec, blocks: seq<Value>, structured: Option<string>) returns (r: Identity)
    ensures r == PayloadIdentity(c, blocks, structured)
  {
    var expected := structured;
    var n := 0;
    while n < |blocks|
      invariant n <= |blocks|
      invariant PayloadIdentity(c, blocks[n..], expected) == PayloadIdentity(c, blocks, structured)
    {
      var id := PayloadId(c, blocks[n]);
      assert blocks[n..][1..] == blocks[n + 1..];
      n := n + 1;
      if id.None? {
        continue;
      }
      if ByteLength(id.value) != 49 || (expected.Some? && expected.value != id.value) {
        return Conflict;
      }
      if expected.None? {
        expected := id;
      }
    }
    r := Settled(expected);
  }

  /** The second loop: links to the settled id are rewritten in place. */
  method AnonymiseLinks(content: seq<Value>, id: string) returns (blocks: seq<Value>)
    ensures blocks == AnonymisedAll(content, id)
  {
    blocks := content;
    var n := 0;
    while n < |blocks|
      invariant n <= |blocks| == |content|
      invariant forall i :: 0 <= i < n ==> blocks[i] == Anonymised(content[i], id)
      invariant forall i :: n <= i < |blocks| ==> blocks[i] == content[i]
    {
      if LinksTo(blocks[n], id) && NativeId(id) {
        blocks := blocks[n := SetMember(blocks[n], "uri", Str(GENERATED_LINK))];
      }
      n := n + 1;
    }
  }

  /** `normalize_native_receipt_links` */
  method NormalizeNativeReceiptLinks(c: Codec, response: Value) returns (r: Value)
    ensures r == NormalizeLinks(c, response)
  {
    r := response;
    var structured := StructuredIdentity(response);
    var content := ContentOf(response);
    if structured.Conflict? || content.None? {
      return;
    }
    var settled := SettlePayloads(c, content.value, structured.id);
    if settled.Conflict? || settled.id.None? {
      return;
    }
    var blocks := AnonymiseLinks(content.value, settled.id.value);
    r := WithContent(response, blocks);
  }

  /** `normalize_response` */
  method Normalize(c: Codec, response: Value) returns (r: Value)
    requires Lawful(c)
    ensures r == NormalizeResponse(c, response)
  {
    r := response;
    if r.Obj? {
      r := Obj(DropKeys(r.fields, {"id"}));
    }
    r := NormalizeNativeReceiptLinks(c, r);
    r := RemoveGenerated(c, r);
  }

  // ---- links that are preserved ----

  /** A conflict between payload ids, or no id at all, leaves every link alone;
      otherwise exactly the links to the settled id lose it. */
  lemma {:induction false} LinksPreserved(c: Codec, response: Value, i: nat)
    requires ContentOf(response).Some? && i < |ContentOf(response).value|
    ensures var blocks, after := ContentOf(response).value, ContentOf(NormalizeLinks(c, response));
            after.Some? && |after.value| == |blocks|
            && (after.value[i] != blocks[i] ==>
                exists id ::
                  ResponseIdentity(c, response) == Settled(Some(id)) && LinksTo(blocks[i], id) && NativeId(id))
            && (forall id ::
                ResponseIdentity(c, response) == Settled(Some(id)) && LinksTo(blocks[i], id) && NativeId(id) ==>
                  AsStr(Member(Some(after.value[i]), "uri")) == Some(GENERATED_LINK))
  {
    var blocks := ContentOf(response).value;
    var identity := ResponseIdentity(c, response);
    if identity.Settled? && identity.id.Some? {
      ContentAfterWith(response, AnonymisedAll(blocks, identity.id.value));
      MemberAfterSet(blocks[i], "uri", Str(GENERATED_LINK), "uri");
    }
  }

  lemma {:induction false} GetAfterStrip(c: Codec, fields: seq<Field>, key: string)
    requires Lawful(c) && key !in GENERATED
    ensures Get(StripFields(c, fields), key) ==
            match Get(fields, key) case Some(v) => Some(Strip(c, v)) case None => None
  {
    if fields != [] {
      GetAfterStrip(c, fields[1..], key);
      if fields[0].key !in GENERATED {
        assert StripFields(c, fields)[1..] == StripFields(c, fields[1..]);
      }
    }
  }

  lemma {:induction false} MemberAfterStrip(c: Codec, v: Value, key: string)
    requires Lawful(c) && key !in GENERATED
    ensures Member(Some(Strip(c, v)), key) ==
            match Member(Some(v), key) case Some(x) => Some(Strip(c, x)) case None => None
  {
    if v.Obj? { GetAfterStrip(c, v.fields, key); }
  }

  lemma {:induction false} ContentAfterStrip(c: Codec, response: Value)
    requires Lawful(c) && ContentOf(response).Some?
    ensures ContentOf(Strip(c, response)) == Some(StripItems(c, ContentOf(response).value))
  {
    MemberAfterStrip(c, response, "result");
    MemberAfterStrip(c, Member(Some(response), "result").value, "content");
  }

  lemma {:induction false} UriAfterStrip(c: Codec, block: Value, rest: string)
    requires Lawful(c) && AsStr(Member(Some(block), "uri")) == Some(LINK_PREFIX + rest)
    ensures AsStr(Member(Some(Strip(c, block)), "uri")) == Some(LINK_PREFIX + rest)
  {
    MemberAfterStrip(c, block, "uri");
    assert (LINK_PREFIX + rest)[0] == 'l';
  }

  /** In a normalised response a receipt link has lost its id exactly when the payloads
      settle on that id and it is native; otherwise its URI is as it was. */
  lemma {:induction false} NormalizedLinks(c: Codec, response: Value, i: nat, id: string)
    requires Lawful(c) && ContentOf(WithoutRequestId(response)).Some?
    requires i < |ContentOf(WithoutRequestId(response)).value|
             && LinksTo(ContentOf(WithoutRequestId(response)).value[i], id)
    ensures var after := ContentOf(NormalizeResponse(c, response));
            && after.Some? && |after.value| == |ContentOf(WithoutRequestId(response)).value|
            && AsStr(Member(Some(after.value[i]), "uri"))
               == Some(LINK_PREFIX + LinkedTo(c, WithoutRequestId(response), id))
  {
    var before := WithoutRequestId(response);
    var linked := NormalizeLinks(c, before);
    LinkedUri(c, before, i, id);
    ContentAfterStrip(c, linked);
    StripItemsAt(c, ContentOf(linked).value, i);
    UriAfterStrip(c, ContentOf(linked).value[i], LinkedTo(c, before, id));
  }

  /** What a link to `id` names after the link pass. */
  function LinkedTo(c: Codec, response: Value, id: string): string {
    if ResponseIdentity(c, response) == Settled(Some(id)) && NativeId(id) then GENERATED_ID else id
  }

  lemma {:induction false} LinkedUri(c: Codec, response: Value, i: nat, id: string)
    requires ContentOf(response).Some? && i < |ContentOf(response).value| && LinksTo(ContentOf(response).value[i], id)
    ensures var after := ContentOf(NormalizeLinks(c, response));
            && after.Some? && |after.value| == |ContentOf(response).value|
            && AsStr(Member(Some(after.value[i]), "uri")) == Some(LINK_PREFIX + LinkedTo(c, response, id))
  {
    var identity := ResponseIdentity(c, response);
    if identity.Settled? && identity.id.Some? {
      ContentAfterWith(response, AnonymisedAll(ContentOf(response).value, identity.id.value));
      AnonymisedUri(ContentOf(response).value[i], id, identity.id.value);
    }
  }

  lemma {:induction false} LinkNamesOne(block: Value, id: string, other: string)
    requires LinksTo(block, id) && LinksTo(block, other)
    ensures id == other
  {
    assert (LINK_PREFIX + other)[|LINK_PREFIX|..] == other && (LINK_PREFIX + id)[|LINK_PREFIX|..] == id;
  }

  lemma {:induction false} AnonymisedUri(block: Value, id: string, other: string)
    requires LinksTo(block, id)
    ensures AsStr(Member(Some(Anonymised(block, other)), "uri"))
            == Some(LINK_PREFIX + if other == id && NativeId(id) then GENERATED_ID else id)
  {
    if LinksTo(block, other) {
      LinkNamesOne(block, id, other);
      MemberAfterSet(block, "uri", Str(GENERATED_LINK), "uri");
    }
  }

  lemma {:induction false} MemberAfterSet(v: Value, key: string, x: Value, other: string)
    ensures Member(Some(SetMember(v, key, x)), other) ==
            if other == key && Member(Some(v), key).Some? then Some(x) else Member(Some(v), other)
  {
    if v.Obj? && Find(v.fields, key).Some? {
      var i := Find(v.fields, key).value;
      FindAfterSet(v.fields, i, Field(key, x), other);
    }
  }

  lemma {:induction false} FindAfterSet(fields: seq<Field>, i: nat, f: Field, other: string)
    requires i < |fields| && fields[i].key == f.key
    ensures Find(fields[i := f], other) == Find(fields, other)
  {
    if i == 0 {
      assert fields[0 := f][1..] == fields[1..];
    } else {
      FindAfterSet(fields[1..], i - 1, f, other);
      assert fields[i := f][1..] == fields[1..][i - 1 := f];
    }
  }

  lemma {:induction false} ContentAfterWith(response: Value, blocks: seq<Value>)
    requires ContentOf(response).Some?
    ensures ContentOf(WithContent(response, blocks)) == Some(blocks)
    ensures StructuredReceipt(WithContent(response, blocks)) == StructuredReceipt(response)
  {
    var result := Member(Some(response), "result").value;
    var updated := SetMember(result, "content", Arr(blocks));
    MemberAfterSet(response, "result", updated, "result");
    MemberAfterSet(result, "content", Arr(blocks), "content");
    MemberAfterSet(result, "content", Arr(blocks), "structuredContent");
  }

  // ---- renaming the one id a response carries ----

  function WithPayloadId(payload: Value, id: string): Value {
    match Member(Some(payload), "meta")
    case Some(meta) => SetMember(payload, "meta", SetMember(meta, "receipt_id", Str(id)))
    case None => payload
  }

  function WithStructuredId(response: Value, id: string): Value {
    match Member(Some(response), "result")
    case Some(result) =>
      (match Member(Some(result), "structuredContent")
       case Some(sc) => SetMember(response, "result", SetMember(result, "structuredContent", WithPayloadId(sc, id)))
       case None => response)
    case None => response
  }

  /** `after` is `before` with the id `p` replaced by `q`: in the JSON text of a
      payload, whatever its layout, or in the URI of a receipt link. */
  ghost predicate BlockRenamed(c: Codec, before: Value, after: Value, p: string, q: string) {
    if PayloadId(c, before) == Some(p) then
      exists text :: after == SetMember(before, "text", Str(text))
                     && c.decode(text) == Some(WithPayloadId(Payload(c, before).value, q))
    else if LinksTo(before, p) then after == SetMember(before, "uri", Str(LINK_PREFIX + q))
    else after == before
  }

  /** `after` is `before` with its one receipt id `p` replaced by `q` everywhere. */
  ghost predicate Renamed(c: Codec, before: Value, after: Value, p: string, q: string) {
    exists blocks: seq<Value> :: RenamedWith(c, before, after, blocks, p, q)
  }

  ghost predicate RenamedWith(c: Codec, before: Value, after: Value, blocks: seq<Value>, p: string, q: string) {
    && ContentOf(before).Some? && |blocks| == |ContentOf(before).value|
    && after == WithStructuredId(WithContent(before, blocks), q)
    && forall i :: 0 <= i < |blocks| ==> BlockRenamed(c, ContentOf(before).value[i], blocks[i], p, q)
  }

  /** Some link of the response names this id. */
  ghost predicate HasLinkTo(response: Value, id: string) {
    && ContentOf(response).Some?
    && exists i :: 0 <= i < |ContentOf(response).value| && LinksTo(ContentOf(response).value[i], id)
  }

  /** The payload texts that carry an id start with a brace, so that the removal
      of generated identifiers looks into them. */
  ghost predicate PayloadsInBraces(c: Codec, response: Value) {
    ContentOf(response).Some? && forall i :: 0 <= i < |ContentOf(response).value| ==>
      PayloadId(c, ContentOf(response).value[i]).Some? ==>
        StartsWithBrace(AsStr(Member(Some(ContentOf(response).value[i]), "text")).value)
  }
}

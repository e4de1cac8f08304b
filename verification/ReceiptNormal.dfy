/** What normalising leaves of a response, said on pointers into it. */
module ReceiptNormal {
  import opened Wrappers
  import opened Text
  import opened Json
  import opened JsonCodec
  import opened GeneratedKeys
  import opened ReceiptLinks
  import opened ReceiptRenaming
  import opened ReceiptRepeat

  // ---- the terms, on the literals of the protocol ----

  /** `r` and 48 lower-case hexadecimal digits. */
  ghost predicate NativeForm(id: string) {
    |id| == 49 && id[0] == 'r' && forall i :: 1 <= i < 49 ==> id[i] in "0123456789abcdef"
  }

  ghost predicate IsLink(block: Value, id: string) {
    && Resolve(block, ["type"]) == Some(Str("resource_link"))
    && Resolve(block, ["name"]) == Some(Str("retrieval_receipt"))
    && Resolve(block, ["uri"]) == Some(Str("leantoken://receipt/v1/" + id))
  }

  /** The block is a text that parses to a payload with this receipt id. */
  ghost predicate Carries(c: Codec, block: Value, id: string) {
    exists text, payload ::
      && Resolve(block, ["type"]) == Some(Str("text")) && Resolve(block, ["text"]) == Some(Str(text))
      && c.decode(text) == Some(payload) && Resolve(payload, ["meta", "receipt_id"]) == Some(Str(id))
  }

  ghost predicate HasContent(response: Value, blocks: seq<Value>) {
    Resolve(response, ["result", "content"]) == Some(Arr(blocks))
  }

  ghost predicate SomeCarries(c: Codec, blocks: seq<Value>, id: string) {
    exists i :: 0 <= i < |blocks| && Carries(c, blocks[i], id)
  }

  ghost predicate NoneElse(c: Codec, blocks: seq<Value>, id: string) {
    forall i, other :: 0 <= i < |blocks| && Carries(c, blocks[i], other) ==> other == id
  }

  /** Wherever the response carries a receipt id, it is this native one. */
  ghost predicate SettlesOn(c: Codec, response: Value, blocks: seq<Value>, id: string) {
    var structured := Resolve(response, ["result", "structuredContent", "meta", "receipt_id"]);
    && NativeForm(id)
    && (structured == None || structured == Some(Str(id)))
    && (structured == Some(Str(id)) || SomeCarries(c, blocks, id)) && NoneElse(c, blocks, id)
  }

  // ---- the terms are those of the model ----

  lemma {:induction false} AsciiBytes(text: string)
    requires forall i :: 0 <= i < |text| ==> text[i] as int < 0x80
    ensures ByteLength(text) == |text|
  {
    if text != "" {
      AsciiBytes(text[1..]);
    }
  }

  lemma {:induction false} NativeIff(id: string)
    ensures NativeForm(id) <==> NativeId(id)
  {
    if NativeForm(id) {
      forall i | 0 <= i < |id| ensures id[i] as int < 0x80 && (i > 0 ==> IsLowerHex(id[i])) { HexDigit(id[i]); }
      AsciiBytes(id);
    }
    if NativeId(id) {
      forall i | 0 <= i < |id| ensures id[i] as int < 0x80 && (i > 0 ==> id[i] in "0123456789abcdef") {
        HexDigit(id[i]);
      }
      AsciiBytes(id);
    }
  }

  lemma {:induction false} HexDigit(c: char)
    ensures c in "0123456789abcdef" <==> IsLowerHex(c)
  {
    if '0' <= c <= '9' { assert "0123456789abcdef"[c as int - '0' as int] == c; }
    if 'a' <= c <= 'f' { assert "0123456789abcdef"[10 + (c as int - 'a' as int)] == c; }
  }

  lemma {:induction false} ResolveMember(v: Value, key: string)
    requires key != "" && !IsDigit(key[0])
    ensures Resolve(v, [key]) == Member(Some(v), key) && Child(v, key) == Member(Some(v), key)
  {
    assert [key][1..] == [];
  }

  lemma {:induction false} ResolveBelow(v: Value, key: string, rest: Tokens)
    requires key != "" && !IsDigit(key[0])
    ensures Resolve(v, [key] + rest)
            == match Member(Some(v), key) case Some(x) => Resolve(x, rest) case None => None
  {
    ResolveMember(v, key);
    assert ([key] + rest)[1..] == rest;
  }

  lemma {:induction false} LinkIff(block: Value, id: string)
    ensures IsLink(block, id) <==> LinksTo(block, id)
  {
    ResolveMember(block, "type");
    ResolveMember(block, "name");
    ResolveMember(block, "uri");
  }

  lemma {:induction false} PayloadPath(payload: Value)
    ensures Resolve(payload, ["meta", "receipt_id"]) == Member(Member(Some(payload), "meta"), "receipt_id")
  {
    assert ["meta", "receipt_id"] == ["meta"] + ["receipt_id"];
    ResolveBelow(payload, "meta", ["receipt_id"]);
    var meta := Member(Some(payload), "meta");
    if meta.Some? { ResolveMember(meta.value, "receipt_id"); }
  }

  lemma {:induction false} CarriesIff(c: Codec, block: Value, id: string)
    ensures Carries(c, block, id) <==> PayloadId(c, block) == Some(id)
  {
    ResolveMember(block, "type");
    ResolveMember(block, "text");
    var payload := Payload(c, block);
    if payload.Some? { PayloadPath(payload.value); }
  }

  lemma {:induction false} StructuredPath(response: Value)
    ensures Resolve(response, ["result", "structuredContent", "meta", "receipt_id"]) == StructuredReceipt(response)
  {
    assert ["result", "structuredContent", "meta", "receipt_id"]
           == ["result"] + (["structuredContent"] + ["meta", "receipt_id"]);
    ResolveBelow(response, "result", ["structuredContent"] + ["meta", "receipt_id"]);
    var result := Member(Some(response), "result");
    if result.Some? {
      ResolveBelow(result.value, "structuredContent", ["meta", "receipt_id"]);
      var structured := Member(result, "structuredContent");
      if structured.Some? { PayloadPath(structured.value); }
    }
  }

  lemma {:induction false} ContentPath(response: Value, blocks: seq<Value>)
    ensures HasContent(response, blocks) <==> ContentOf(response) == Some(blocks)
  {
    assert ["result", "content"] == ["result"] + ["content"];
    ResolveBelow(response, "result", ["content"]);
    var result := Member(Some(response), "result");
    if result.Some? { ResolveMember(result.value, "content"); }
  }

  lemma {:induction false} SomeCarriesIff(c: Codec, blocks: seq<Value>, id: string)
    ensures SomeCarries(c, blocks, id) <==> exists i :: 0 <= i < |blocks| && PayloadId(c, blocks[i]) == Some(id)
  {
    if i :| 0 <= i < |blocks| && Carries(c, blocks[i], id) { CarriesIff(c, blocks[i], id); }
    if i :| 0 <= i < |blocks| && PayloadId(c, blocks[i]) == Some(id) { CarriesIff(c, blocks[i], id); }
  }

  lemma {:induction false} NoneElseIff(c: Codec, blocks: seq<Value>, id: string)
    ensures NoneElse(c, blocks, id)
            <==> forall i :: 0 <= i < |blocks| && PayloadId(c, blocks[i]).Some? ==> PayloadId(c, blocks[i]) == Some(id)
  {
    if NoneElse(c, blocks, id) {
      forall i | 0 <= i < |blocks| && PayloadId(c, blocks[i]).Some? ensures PayloadId(c, blocks[i]) == Some(id) {
        CarriesIff(c, blocks[i], PayloadId(c, blocks[i]).value);
      }
    } else {
      var i, other :| 0 <= i < |blocks| && Carries(c, blocks[i], other) && other != id;
      CarriesIff(c, blocks[i], other);
    }
  }

  lemma {:induction false} AgreementIff(c: Codec, blocks: seq<Value>, expected: Option<string>, id: string)
    requires NativeId(id) && (expected == None || expected == Some(id))
    ensures PayloadIdentity(c, blocks, expected) == Settled(Some(id)) <==> AgreeOn(c, blocks, expected, id)
  {
    if AgreeOn(c, blocks, expected, id) { AgreeingSettle(c, blocks, expected, id); }
    if PayloadIdentity(c, blocks, expected) == Settled(Some(id)) { SettledAgree(c, blocks, expected, id); }
  }

  lemma {:induction false} StructuredIff(response: Value, id: string)
    requires NativeId(id)
    ensures StructuredReceipt(response) == None <==> StructuredIdentity(response) == Settled(None)
    ensures StructuredReceipt(response) == Some(Str(id)) <==> StructuredIdentity(response) == Settled(Some(id))
  {
  }

  lemma {:induction false} SettledElsewhere(c: Codec, response: Value, blocks: seq<Value>, id: string)
    requires ContentOf(response) == Some(blocks) && ResponseIdentity(c, response) == Settled(Some(id))
    ensures StructuredIdentity(response) == Settled(None) || StructuredIdentity(response) == Settled(Some(id))
  {
    var expected := StructuredIdentity(response).id;
    IdentityFrom(c, response, blocks, expected);
    PayloadsAgree(c, blocks, expected, id);
  }

  /** The response settles on a native id exactly when, wherever it carries one, it is
      this one. */
  lemma {:induction false} SettlesIff(c: Codec, response: Value, blocks: seq<Value>, id: string)
    requires ContentOf(response) == Some(blocks)
    ensures SettlesOn(c, response, blocks, id) <==> NativeId(id) && ResponseIdentity(c, response) == Settled(Some(id))
  {
    NativeIff(id);
    StructuredPath(response);
    if NativeId(id) {
      StructuredIff(response, id);
      var structured := StructuredIdentity(response);
      if structured == Settled(None) || structured == Settled(Some(id)) {
        IdentityFrom(c, response, blocks, structured.id);
        SomeCarriesIff(c, blocks, id);
        NoneElseIff(c, blocks, id);
        AgreementIff(c, blocks, structured.id, id);
      } else if ResponseIdentity(c, response) == Settled(Some(id)) {
        SettledElsewhere(c, response, blocks, id);
      }
    }
  }

  // ---- the request id ----

  lemma {:induction false} DropAppend(a: seq<Field>, b: seq<Field>, keys: set<string>)
    ensures DropKeys(a + b, keys) == DropKeys(a, keys) + DropKeys(b, keys)
  {
    if a == [] {
      assert a + b == b;
    } else {
      DropAppend(a[1..], b, keys);
      assert (a + b)[1..] == a[1..] + b;
    }
  }

  lemma {:induction false} DropOne(f: Field, key: string)
    requires f.key == key
    ensures DropKeys([f], {key}) == []
  {
    assert [f][1..] == [];
  }

  /** A top-level entry under "id" makes no difference, whatever it holds and wherever
      it stands. */
  lemma {:induction false} RequestIdIsIgnored(c: Codec, before: seq<Field>, after: seq<Field>, id: Value)
    requires Lawful(c)
    ensures NormalizeResponse(c, Obj(before + [Field("id", id)] + after)) == NormalizeResponse(c, Obj(before + after))
  {
    var entry := [Field("id", id)];
    DropOne(Field("id", id), "id");
    DropAppend(before + entry, after, {"id"});
    DropAppend(before, entry, {"id"});
    DropAppend(before, after, {"id"});
    assert DropKeys(before, {"id"}) + [] == DropKeys(before, {"id"});
  }

  // ---- the other top-level entries ----

  lemma {:induction false} GetCons(f: Field, rest: seq<Field>, key: string)
    ensures Get([f] + rest, key) == if f.key == key then Some(f.value) else Get(rest, key)
  {
    assert ([f] + rest)[1..] == rest;
  }

  lemma {:induction false} GetAfterDrop(fields: seq<Field>, keys: set<string>, key: string)
    requires key !in keys
    ensures Get(DropKeys(fields, keys), key) == Get(fields, key)
  {
    if fields != [] {
      GetAfterDrop(fields[1..], keys, key);
      if fields[0].key !in keys {
        GetCons(fields[0], DropKeys(fields[1..], keys), key);
      }
      assert fields == [fields[0]] + fields[1..];
      GetCons(fields[0], fields[1..], key);
    }
  }

  lemma {:induction false} BareMember(response: Value, key: string)
    requires key != "id"
    ensures Member(Some(WithoutRequestId(response)), key) == Member(Some(response), key)
  {
    if response.Obj? { GetAfterDrop(response.fields, {"id"}, key); }
  }

  lemma {:induction false} BareTerms(c: Codec, response: Value)
    ensures ContentOf(WithoutRequestId(response)) == ContentOf(response)
    ensures ResponseIdentity(c, WithoutRequestId(response)) == ResponseIdentity(c, response)
    ensures Member(Some(WithoutRequestId(response)), "result") == Member(Some(response), "result")
  {
    assert |"result"| == 6 && |"id"| == 2;
    BareMember(response, "result");
  }

  /** A value after stripping, if there is one. */
  function Stripped(c: Codec, v: Option<Value>): Option<Value>
    requires Lawful(c)
  {
    match v
    case Some(x) => Some(Strip(c, x))
    case None => None
  }

  lemma {:induction false} LinkedMember(c: Codec, response: Value, key: string)
    requires key != "result"
    ensures Member(Some(NormalizeLinks(c, response)), key) == Member(Some(response), key)
  {
    var identity := ResponseIdentity(c, response);
    if identity.Settled? && identity.id.Some? {
      var result := Member(Some(response), "result").value;
      var blocks := AnonymisedAll(ContentOf(response).value, identity.id.value);
      MemberAfterSet(response, "result", SetMember(result, "content", Arr(blocks)), key);
    }
  }

  /** Every other top-level entry is still there, stripped of identifiers. */
  lemma {:induction false} EntriesKept(c: Codec, response: Value, key: string)
    requires Lawful(c) && key !in ["id", "result"]
    requires key !in ["receipt_id", "repository_id", "freshness", "path_and_metadata_tokens", "total_response_tokens"]
    ensures Member(Some(NormalizeResponse(c, response)), key) == Stripped(c, Member(Some(response), key))
  {
    Identifiers(key);
    BareMember(response, key);
    LinkedMember(c, WithoutRequestId(response), key);
    MemberAfterStrip(c, NormalizeLinks(c, WithoutRequestId(response)), key);
  }

  lemma {:induction false} Identifiers(key: string)
    ensures key in GENERATED <==>
            key in ["receipt_id", "repository_id", "freshness", "path_and_metadata_tokens", "total_response_tokens"]
    ensures key !in ["id", "result"] <==> key != "id" && key != "result"
  {
    var list := ["receipt_id", "repository_id", "freshness", "path_and_metadata_tokens", "total_response_tokens"];
    assert list[0] in list && list[1] in list && list[2] in list && list[3] in list && list[4] in list;
    assert ["id", "result"][0] == "id" && ["id", "result"][1] == "result";
  }

  /** The request id and the generated identifiers are gone. */
  lemma {:induction false} IdentifiersGone(c: Codec, response: Value, key: string)
    requires Lawful(c)
    requires key in ["id", "receipt_id", "repository_id", "freshness", "path_and_metadata_tokens",
                     "total_response_tokens"]
    ensures Member(Some(NormalizeResponse(c, response)), key) == None
  {
    var normal := NormalizeResponse(c, response);
    if key == "id" {
      NormalizedWithoutId(c, response);
    } else {
      Identifiers(key);
      NoneGenerated(c, NormalizeLinks(c, WithoutRequestId(response)), key);
    }
  }

  // ---- below `result` ----

  lemma {:induction false} LinkedResult(c: Codec, response: Value, key: string)
    requires Member(Some(response), "result").Some? && key != "content"
    ensures Member(Some(NormalizeLinks(c, response)), "result").Some?
    ensures Member(Member(Some(NormalizeLinks(c, response)), "result"), key)
            == Member(Member(Some(response), "result"), key)
  {
    var identity := ResponseIdentity(c, response);
    if identity.Settled? && identity.id.Some? {
      var result := Member(Some(response), "result").value;
      var blocks := AnonymisedAll(ContentOf(response).value, identity.id.value);
      MemberAfterSet(response, "result", SetMember(result, "content", Arr(blocks)), "result");
      MemberAfterSet(result, "content", Arr(blocks), key);
    }
  }

  /** Every entry of the result but its content is still there, stripped. */
  lemma {:induction false} ResultKept(c: Codec, response: Value, key: string)
    requires Lawful(c) && Member(Some(response), "result").Some? && key != "content"
    requires key !in ["receipt_id", "repository_id", "freshness", "path_and_metadata_tokens", "total_response_tokens"]
    ensures Member(Some(NormalizeResponse(c, response)), "result").Some?
    ensures Member(Member(Some(NormalizeResponse(c, response)), "result"), key)
            == Stripped(c, Member(Member(Some(response), "result"), key))
  {
    var linked := NormalizeLinks(c, WithoutRequestId(response));
    Identifiers(key);
    BareTerms(c, response);
    LinkedResult(c, WithoutRequestId(response), key);
    MemberAfterStrip(c, linked, "result");
    MemberAfterStrip(c, Member(Some(linked), "result").value, key);
  }

  /** Without content blocks nothing is relinked. */
  lemma {:induction false} ResultWithoutContent(c: Codec, response: Value)
    requires Lawful(c) && forall blocks :: !HasContent(response, blocks)
    ensures Member(Some(NormalizeResponse(c, response)), "result") == Stripped(c, Member(Some(response), "result"))
  {
    if ContentOf(response).Some? { ContentPath(response, ContentOf(response).value); }
    BareTerms(c, response);
    ContentAfterLinks(c, WithoutRequestId(response));
    MemberAfterStrip(c, WithoutRequestId(response), "result");
  }

  /** The block is a link to the one receipt the response settles on. */
  ghost predicate OwnLink(c: Codec, response: Value, blocks: seq<Value>, block: Value) {
    exists id :: SettlesOn(c, response, blocks, id) && IsLink(block, id)
  }

  /** Block by block: a link to the response's own receipt gets the placeholder for its
      URI, and nothing else changes but for the stripping. */
  lemma {:induction false} ContentNormalized(c: Codec, response: Value, blocks: seq<Value>) returns (after: seq<Value>)
    requires Lawful(c) && HasContent(response, blocks)
    ensures HasContent(NormalizeResponse(c, response), after) && |after| == |blocks|
    ensures forall i :: 0 <= i < |blocks| ==>
              after[i] == Strip(c, if OwnLink(c, response, blocks, blocks[i])
                                   then SetMember(blocks[i], "uri", Str("leantoken://receipt/v1/<generated-receipt>"))
                                   else blocks[i])
  {
    var bare := WithoutRequestId(response);
    var linked := NormalizeLinks(c, bare);
    ContentPath(response, blocks);
    BareTerms(c, response);
    ContentAfterLinks(c, bare);
    ContentAfterStrip(c, linked);
    var own := ContentOf(linked).value;
    after := StripItems(c, own);
    ContentPath(NormalizeResponse(c, response), after);
    forall i | 0 <= i < |blocks|
      ensures after[i] == Strip(c, if OwnLink(c, response, blocks, blocks[i])
                                   then SetMember(blocks[i], "uri", Str("leantoken://receipt/v1/<generated-receipt>"))
                                   else blocks[i])
    {
      StripItemsAt(c, own, i);
      Placeholder();
      OwnLinkIff(c, response, blocks, blocks[i]);
    }
  }

  lemma {:induction false} Placeholder()
    ensures GENERATED_LINK == "leantoken://receipt/v1/<generated-receipt>"
  {
  }

  lemma {:induction false} OwnLinkIff(c: Codec, response: Value, blocks: seq<Value>, block: Value)
    requires ContentOf(response) == Some(blocks)
    ensures var identity := ResponseIdentity(c, response);
            OwnLink(c, response, blocks, block)
            <==> identity.Settled? && identity.id.Some? && NativeId(identity.id.value)
                 && LinksTo(block, identity.id.value)
  {
    var identity := ResponseIdentity(c, response);
    if OwnLink(c, response, blocks, block) {
      var id :| SettlesOn(c, response, blocks, id) && IsLink(block, id);
      LinkToSettled(c, response, blocks, block, id);
    }
    if identity.Settled? && identity.id.Some? {
      LinkToSettled(c, response, blocks, block, identity.id.value);
    }
  }

  lemma {:induction false} LinkToSettled(c: Codec, response: Value, blocks: seq<Value>, block: Value, id: string)
    requires ContentOf(response) == Some(blocks)
    ensures SettlesOn(c, response, blocks, id) && IsLink(block, id)
            <==> NativeId(id) && ResponseIdentity(c, response) == Settled(Some(id)) && LinksTo(block, id)
  {
    SettlesIff(c, response, blocks, id);
    LinkIff(block, id);
  }
}

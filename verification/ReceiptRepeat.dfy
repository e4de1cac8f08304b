/** Normalising a response twice: when the second pass changes nothing. */
module ReceiptRepeat {
  import opened Wrappers
  import opened Json
  import opened JsonCanonical
  import opened JsonCodec
  import opened GeneratedKeys
  import opened ReceiptLinks
  import opened ReceiptRenaming
  import opened JsonText

  /** The id of a payload text that stripping leaves alone, because it does not start
      with a brace. */
  ghost function HiddenId(c: Codec, block: Value): Option<string> {
    if InBraces(c, block) then None else PayloadId(c, block)
  }

  /** Some payload text keeps this id through stripping, and none keeps another. */
  ghost predicate HiddenAgreeOn(c: Codec, blocks: seq<Value>, id: string) {
    && (exists i :: 0 <= i < |blocks| && HiddenId(c, blocks[i]) == Some(id))
    && forall i :: 0 <= i < |blocks| && HiddenId(c, blocks[i]).Some? ==> HiddenId(c, blocks[i]) == Some(id)
  }

  /** A link to `id` that the first pass keeps, because another id or a malformed one
      stands in the way, and the second rewrites, because stripping has removed that. */
  ghost predicate LeftForSecondPass(c: Codec, response: Value, id: string) {
    && NativeId(id) && HasLinkTo(response, id)
    && HiddenAgreeOn(c, ContentOf(response).value, id) && ResponseIdentity(c, response) != Settled(Some(id))
  }

  // ---- what stripping leaves of a block ----

  /** A text that is no object text stays, and no other text becomes it. */
  lemma {:induction false} TextAfterStrip(c: Codec, v: Value, key: string, text: string)
    requires Lawful(c) && key !in GENERATED && !StartsWithBrace(text)
    ensures AsStr(Member(Some(Strip(c, v)), key)) == Some(text) <==> AsStr(Member(Some(v), key)) == Some(text)
  {
    MemberAfterStrip(c, v, key);
    var x := Member(Some(v), key);
    if x.Some? && x.value.Str? && Embedded(c, x.value.text).Some? {
      StripKeepsShape(c, Embedded(c, x.value.text).value);
      assert WritesWell(c, Strip(c, Embedded(c, x.value.text).value));
    }
  }

  lemma {:induction false} NoneGenerated(c: Codec, v: Value, key: string)
    requires Lawful(c) && key in GENERATED
    ensures Member(Some(Strip(c, v)), key) == None
  {
    if v.Obj? {
      StripFieldsClean(c, v.fields);
    }
  }

  lemma {:induction false} NoReceipt(c: Codec, payload: Value)
    requires Lawful(c)
    ensures Member(Member(Some(Strip(c, payload)), "meta"), "receipt_id") == None
  {
    MemberAfterStrip(c, payload, "meta");
    var meta := Member(Some(payload), "meta");
    if meta.Some? { NoneGenerated(c, meta.value, "receipt_id"); }
  }

  lemma {:induction false} PayloadAfterStrip(c: Codec, block: Value)
    requires Lawful(c)
    ensures PayloadId(c, Strip(c, block)) == HiddenId(c, block)
  {
    TextAfterStrip(c, block, "type", "text");
    MemberAfterStrip(c, block, "text");
    var text := AsStr(Member(Some(block), "text"));
    if text.Some? && Embedded(c, text.value).Some? {
      EmbeddedAfterStrip(c, text.value);
      NoReceipt(c, Embedded(c, text.value).value);
    }
  }

  lemma {:induction false} LinkAfterStrip(c: Codec, block: Value, id: string)
    requires Lawful(c)
    ensures LinksTo(Strip(c, block), id) <==> LinksTo(block, id)
  {
    assert (LINK_PREFIX + id)[0] == 'l';
    TextAfterStrip(c, block, "type", "resource_link");
    TextAfterStrip(c, block, "name", "retrieval_receipt");
    TextAfterStrip(c, block, "uri", LINK_PREFIX + id);
  }

  // ---- what the link pass leaves of a block ----

  lemma {:induction false} HiddenAfterLinks(c: Codec, block: Value, p: string)
    ensures HiddenId(c, Anonymised(block, p)) == HiddenId(c, block)
  {
    MemberAfterSet(block, "uri", Str(GENERATED_LINK), "type");
  }

  lemma {:induction false} LinkAfterLinks(block: Value, p: string, id: string)
    requires NativeId(id)
    ensures LinksTo(Anonymised(block, p), id) <==> LinksTo(block, id) && p != id
  {
    if LinksTo(block, p) && NativeId(p) {
      assert (LINK_PREFIX + id)[|LINK_PREFIX|] == 'r' && GENERATED_LINK[|LINK_PREFIX|] == '<';
      MemberAfterSet(block, "uri", Str(GENERATED_LINK), "uri");
      if LinksTo(block, id) { LinkNamesOne(block, p, id); }
    }
  }

  // ---- what the first pass leaves of the response ----

  /** Every block after the first pass: its id and its links. */
  ghost predicate BlockLeft(c: Codec, before: Value, after: Value, identity: Identity) {
    && PayloadId(c, after) == HiddenId(c, before)
    && forall id :: NativeId(id) ==>
         (LinksTo(after, id) <==> LinksTo(before, id) && identity != Settled(Some(id)))
  }

  ghost predicate BlocksLeft(c: Codec, own: seq<Value>, left: seq<Value>, identity: Identity) {
    |own| == |left| && forall i :: 0 <= i < |left| ==> BlockLeft(c, own[i], left[i], identity)
  }

  lemma {:induction false} BlockIsLeft(c: Codec, before: Value, linked: Value, identity: Identity)
    requires Lawful(c)
    requires linked == if identity.Settled? && identity.id.Some? then Anonymised(before, identity.id.value) else before
    ensures BlockLeft(c, before, Strip(c, linked), identity)
  {
    PayloadAfterStrip(c, linked);
    if identity.Settled? && identity.id.Some? { HiddenAfterLinks(c, before, identity.id.value); }
    forall id | NativeId(id)
      ensures LinksTo(Strip(c, linked), id) <==> LinksTo(before, id) && identity != Settled(Some(id))
    {
      LinkAfterStrip(c, linked, id);
      if identity.Settled? && identity.id.Some? { LinkAfterLinks(before, identity.id.value, id); }
    }
  }

  lemma {:induction false} ContentAfterLinks(c: Codec, response: Value)
    ensures ContentOf(response).None? ==> NormalizeLinks(c, response) == response
    ensures ContentOf(response).Some? ==>
              var identity := ResponseIdentity(c, response);
              ContentOf(NormalizeLinks(c, response))
              == Some(if identity.Settled? && identity.id.Some?
                      then AnonymisedAll(ContentOf(response).value, identity.id.value) else ContentOf(response).value)
  {
    var identity := ResponseIdentity(c, response);
    if identity.Settled? && identity.id.Some? {
      ContentAfterWith(response, AnonymisedAll(ContentOf(response).value, identity.id.value));
    }
  }

  lemma {:induction false} NoContentAfterStrip(c: Codec, response: Value)
    requires Lawful(c) && ContentOf(response).None?
    ensures ContentOf(Strip(c, response)).None?
  {
    MemberAfterStrip(c, response, "result");
    var result := Member(Some(response), "result");
    if result.Some? { MemberAfterStrip(c, result.value, "content"); }
  }

  lemma {:induction false} NoStructuredReceipt(c: Codec, response: Value)
    requires Lawful(c)
    ensures StructuredIdentity(Strip(c, response)) == Settled(None)
  {
    MemberAfterStrip(c, response, "result");
    var result := Member(Some(response), "result");
    if result.Some? {
      MemberAfterStrip(c, result.value, "structuredContent");
      var structured := Member(result, "structuredContent");
      if structured.Some? { NoReceipt(c, structured.value); }
    }
  }

  /** The first pass leaves no structured id, and of each block what `BlockLeft` says. */
  lemma {:induction false} FirstPassLeaves(c: Codec, response: Value)
    requires Lawful(c)
    ensures var after := Strip(c, NormalizeLinks(c, response));
            && StructuredIdentity(after) == Settled(None)
            && (ContentOf(after).Some? <==> ContentOf(response).Some?)
            && (ContentOf(after).Some? ==>
                BlocksLeft(c, ContentOf(response).value, ContentOf(after).value, ResponseIdentity(c, response)))
  {
    var linked := NormalizeLinks(c, response);
    NoStructuredReceipt(c, linked);
    ContentAfterLinks(c, response);
    if ContentOf(response).None? {
      NoContentAfterStrip(c, response);
    } else {
      var own, blocks := ContentOf(response).value, ContentOf(linked).value;
      ContentAfterStrip(c, linked);
      forall i | 0 <= i < |own|
        ensures BlockLeft(c, own[i], StripItems(c, blocks)[i], ResponseIdentity(c, response))
      {
        StripItemsAt(c, blocks, i);
        BlockIsLeft(c, own[i], blocks[i], ResponseIdentity(c, response));
      }
    }
  }

  // ---- the second pass ----

  ghost predicate AgreeOn(c: Codec, blocks: seq<Value>, expected: Option<string>, id: string) {
    && (expected == Some(id) || exists i :: 0 <= i < |blocks| && PayloadId(c, blocks[i]) == Some(id))
    && forall i :: 0 <= i < |blocks| && PayloadId(c, blocks[i]).Some? ==> PayloadId(c, blocks[i]) == Some(id)
  }

  lemma {:induction false} AgreeOnRest(c: Codec, blocks: seq<Value>, expected: Option<string>, id: string)
    requires blocks != [] && AgreeOn(c, blocks, expected, id)
    ensures AgreeOn(c, blocks[1..], if PayloadId(c, blocks[0]).None? then expected else Some(id), id)
  {
    var rest := blocks[1..];
    forall i | 0 <= i < |rest| && PayloadId(c, rest[i]).Some? ensures PayloadId(c, rest[i]) == Some(id) {
      assert rest[i] == blocks[i + 1];
    }
    if PayloadId(c, blocks[0]).None? && expected != Some(id) {
      var i :| 0 <= i < |blocks| && PayloadId(c, blocks[i]) == Some(id);
      assert PayloadId(c, rest[i - 1]) == Some(id);
    }
  }

  lemma {:induction false} AgreeingSettle(c: Codec, blocks: seq<Value>, expected: Option<string>, id: string)
    requires NativeId(id) && expected in {None, Some(id)} && AgreeOn(c, blocks, expected, id)
    ensures PayloadIdentity(c, blocks, expected) == Settled(Some(id))
  {
    if blocks != [] {
      AgreeOnRest(c, blocks, expected, id);
      AgreeingSettle(c, blocks[1..], if PayloadId(c, blocks[0]).None? then expected else Some(id), id);
    }
  }

  lemma {:induction false} SettledAgree(c: Codec, blocks: seq<Value>, expected: Option<string>, id: string)
    requires PayloadIdentity(c, blocks, expected) == Settled(Some(id))
    ensures AgreeOn(c, blocks, expected, id)
  {
    PayloadsAgree(c, blocks, expected, id);
    if blocks != [] && expected.None? {
      var own := PayloadId(c, blocks[0]);
      SettledAgree(c, blocks[1..], own, id);
      if own.None? {
        var i :| 0 <= i < |blocks[1..]| && PayloadId(c, blocks[1..][i]) == Some(id);
        assert PayloadId(c, blocks[i + 1]) == Some(id);
      } else {
        assert PayloadId(c, blocks[0]) == Some(id);
      }
    }
  }

  /** The pass over a stripped response rewrites a link to `id`. */
  ghost predicate Relinks(c: Codec, response: Value, id: string) {
    NativeId(id) && HasLinkTo(response, id) && ResponseIdentity(c, response) == Settled(Some(id))
  }

  lemma {:induction false} RelinksIff(c: Codec, response: Value, id: string)
    requires Lawful(c)
    ensures Relinks(c, Strip(c, NormalizeLinks(c, response)), id) <==> LeftForSecondPass(c, response, id)
  {
    var after := Strip(c, NormalizeLinks(c, response));
    FirstPassLeaves(c, response);
    if NativeId(id) && ContentOf(response).Some? {
      var own, left := ContentOf(response).value, ContentOf(after).value;
      IdentityFrom(c, after, left, None);
      LinksLeft(c, own, left, ResponseIdentity(c, response), id);
      HiddenAreLeft(c, own, left, ResponseIdentity(c, response), id);
      if AgreeOn(c, left, None, id) { AgreeingSettle(c, left, None, id); }
      if PayloadIdentity(c, left, None) == Settled(Some(id)) { SettledAgree(c, left, None, id); }
    }
  }

  lemma {:induction false} HiddenAreLeft(c: Codec, own: seq<Value>, left: seq<Value>, identity: Identity, id: string)
    requires BlocksLeft(c, own, left, identity)
    ensures AgreeOn(c, left, None, id) <==> HiddenAgreeOn(c, own, id)
  {
    assert forall i :: 0 <= i < |left| ==> BlockLeft(c, own[i], left[i], identity);
    assert forall i :: 0 <= i < |left| ==> PayloadId(c, left[i]) == HiddenId(c, own[i]);
  }

  lemma {:induction false} LinksLeft(c: Codec, own: seq<Value>, left: seq<Value>, identity: Identity, id: string)
    requires BlocksLeft(c, own, left, identity) && NativeId(id)
    ensures (exists i :: 0 <= i < |left| && LinksTo(left[i], id))
            <==> (exists i :: 0 <= i < |own| && LinksTo(own[i], id)) && identity != Settled(Some(id))
  {
    assert forall i :: 0 <= i < |left| ==> BlockLeft(c, own[i], left[i], identity);
    assert forall i :: 0 <= i < |left| ==>
      (LinksTo(left[i], id) <==> LinksTo(own[i], id) && identity != Settled(Some(id)));
  }

  // ---- the request id is gone ----

  predicate WithoutKey(v: Value, key: string) {
    v.Obj? ==> forall i :: 0 <= i < |v.fields| ==> v.fields[i].key != key
  }

  lemma {:induction false} NothingToDrop(fields: seq<Field>, key: string)
    requires forall i :: 0 <= i < |fields| ==> fields[i].key != key
    ensures DropKeys(fields, {key}) == fields
  {
    if fields != [] {
      NothingToDrop(fields[1..], key);
    }
  }

  lemma {:induction false} StripAddsNoKey(c: Codec, fields: seq<Field>, key: string)
    requires Lawful(c) && forall i :: 0 <= i < |fields| ==> fields[i].key != key
    ensures forall i :: 0 <= i < |StripFields(c, fields)| ==> StripFields(c, fields)[i].key != key
  {
    if fields != [] {
      StripAddsNoKey(c, fields[1..], key);
    }
  }

  /** No top-level entry of a normalised response is named "id". */
  lemma {:induction false} NormalizedWithoutId(c: Codec, response: Value)
    requires Lawful(c)
    ensures WithoutKey(NormalizeResponse(c, response), "id")
  {
    var bare := WithoutRequestId(response);
    if response.Obj? { DropKeysLeavesNone(response.fields, {"id"}); }
    assert WithoutKey(bare, "id");
    var linked := NormalizeLinks(c, bare);
    assert WithoutKey(linked, "id");
    if linked.Obj? {
      StripAddsNoKey(c, linked.fields, "id");
      assert Strip(c, linked) == Obj(StripFields(c, linked.fields));
    }
    assert NormalizeResponse(c, response) == Strip(c, linked);
  }

  lemma {:induction false} NormalizedHasNoRequestId(c: Codec, response: Value)
    requires Lawful(c)
    ensures WithoutRequestId(NormalizeResponse(c, response)) == NormalizeResponse(c, response)
  {
    var normal := NormalizeResponse(c, response);
    NormalizedWithoutId(c, response);
    if normal.Obj? { NothingToDrop(normal.fields, "id"); }
  }

  // ---- both passes ----

  lemma {:induction false} NothingRelinked(c: Codec, response: Value)
    requires forall id :: !Relinks(c, response, id)
    ensures NormalizeLinks(c, response) == response
  {
    var identity := ResponseIdentity(c, response);
    if identity.Settled? && identity.id.Some? {
      var blocks := ContentOf(response).value;
      assert !Relinks(c, response, identity.id.value);
      assert AnonymisedAll(blocks, identity.id.value) == blocks;
      SetMemberToItself(Member(Some(response), "result").value, "content");
      SetMemberToItself(response, "result");
    }
  }

  lemma {:induction false} RelinkedDiffers(c: Codec, response: Value, id: string)
    requires Lawful(c) && WithoutRequestId(response) == response && Relinks(c, response, id)
    ensures NormalizeResponse(c, response) != response
  {
    var i :| 0 <= i < |ContentOf(response).value| && LinksTo(ContentOf(response).value[i], id);
    NormalizedLinks(c, response, i, id);
    assert (LINK_PREFIX + id)[|LINK_PREFIX|] == 'r' && GENERATED_LINK[|LINK_PREFIX|] == '<';
  }

  /** Normalising a second time changes nothing exactly when no link is left for the
      second pass: a link to a native id that the payload texts out of braces agree on
      while the structured payload or a text in braces says otherwise. */
  lemma {:induction false} SecondPassIff(c: Codec, response: Value)
    requires Lawful(c)
    ensures NormalizeResponse(c, NormalizeResponse(c, response)) == NormalizeResponse(c, response)
            <==> !exists id :: LeftForSecondPass(c, WithoutRequestId(response), id)
  {
    var bare, once := WithoutRequestId(response), NormalizeResponse(c, response);
    NormalizedHasNoRequestId(c, response);
    if id :| LeftForSecondPass(c, bare, id) {
      RelinksIff(c, bare, id);
      RelinkedDiffers(c, once, id);
    } else {
      forall id ensures !Relinks(c, once, id) { RelinksIff(c, bare, id); }
      NothingRelinked(c, once);
      StripIdempotent(c, NormalizeLinks(c, bare));
    }
  }

  // ---- a response that a second pass changes ----

  function PayloadWith(id: string): Value {
    Single("meta", Single("receipt_id", Str(id)))
  }

  function TextBlock(text: string): Value {
    Obj([Field("type", Str("text")), Field("text", Str(text))])
  }

  /** Structured id `p`; a payload text, behind a space, and a link with id `q`. */
  function Disputed(p: string, q: string): Value {
    Single("result", Obj([Field("content", Arr([TextBlock(" " + Encode(PayloadWith(q))), ReceiptLink(q)])),
                          Field("structuredContent", PayloadWith(p))]))
  }

  lemma {:induction false} DisputedParts(p: string, q: string)
    requires NativeId(p) && NativeId(q) && p != q
    ensures ContentOf(Disputed(p, q)) == Some([TextBlock(" " + Encode(PayloadWith(q))), ReceiptLink(q)])
    ensures StructuredReceipt(Disputed(p, q)) == Some(Str(p)) && WithoutRequestId(Disputed(p, q)) == Disputed(p, q)
  {
    var result := Member(Some(Disputed(p, q)), "result").value;
    FieldsOf(result.fields, "structuredContent");
    var fields := Disputed(p, q).fields;
    assert |fields[0].key| == 6 && |"id"| == 2 && fields[1..] == [];
    assert DropKeys(fields, {"id"}) == [fields[0]] + DropKeys(fields[1..], {"id"});
  }

  lemma {:induction false} SingleFlat(key: string, v: Value)
    requires AllAscending(v)
    ensures AllAscending(Single(key, v)) && Depth(Single(key, v)) == 1 + Depth(v)
  {
    var fields := [Field(key, v)];
    assert fields[1..] == [];
    assert FieldsDepth(fields) == Deeper(Depth(v), FieldsDepth([])) == Depth(v);
  }

  lemma {:induction false} TextBlockHides(q: string)
    ensures var block := TextBlock(" " + Encode(PayloadWith(q)));
            PayloadId(MINI, block) == HiddenId(MINI, block) == Some(q)
  {
    var text := " " + Encode(PayloadWith(q));
    FieldsOf(TextBlock(text).fields, "text");
    SingleFlat("receipt_id", Str(q));
    SingleFlat("meta", Single("receipt_id", Str(q)));
    SpaceHidesTheBrace(PayloadWith(q));
  }

  lemma {:induction false} OtherIdConflicts(c: Codec, blocks: seq<Value>, p: string, q: string)
    requires blocks != [] && PayloadId(c, blocks[0]) == Some(q) && p != q
    ensures PayloadIdentity(c, blocks, Some(p)) == Conflict
  {
  }

  lemma {:induction false} TwoAgree(c: Codec, blocks: seq<Value>, q: string)
    requires |blocks| == 2 && HiddenId(c, blocks[0]) == Some(q) && HiddenId(c, blocks[1]) == None
    ensures HiddenAgreeOn(c, blocks, q)
  {
    forall i | 0 <= i < |blocks| && HiddenId(c, blocks[i]).Some? ensures HiddenId(c, blocks[i]) == Some(q) {
      assert i == 0 || i == 1;
    }
  }

  lemma {:induction false} DisputedIsLeft(c: Codec, response: Value, blocks: seq<Value>, p: string, q: string)
    requires NativeId(p) && NativeId(q) && p != q
    requires ContentOf(response) == Some(blocks) && StructuredReceipt(response) == Some(Str(p)) && |blocks| == 2
    requires PayloadId(c, blocks[0]) == HiddenId(c, blocks[0]) == Some(q)
    requires PayloadId(c, blocks[1]).None? && LinksTo(blocks[1], q)
    ensures LeftForSecondPass(c, response, q)
  {
    IdentityFrom(c, response, blocks, Some(p));
    OtherIdConflicts(c, blocks, p, q);
    TwoAgree(c, blocks, q);
  }

  /** The first pass keeps the link, the second rewrites it. */
  lemma {:induction false} SecondPassChanges(p: string, q: string)
    requires NativeId(p) && NativeId(q) && p != q
    ensures Lawful(MINI)
    ensures NormalizeResponse(MINI, NormalizeResponse(MINI, Disputed(p, q))) != NormalizeResponse(MINI, Disputed(p, q))
  {
    MiniIsLawful();
    DisputedParts(p, q);
    TextBlockHides(q);
    LinkingParts(MINI, p, q);
    DisputedIsLeft(MINI, Disputed(p, q), [TextBlock(" " + Encode(PayloadWith(q))), ReceiptLink(q)], p, q);
    SecondPassIff(MINI, Disputed(p, q));
  }
}

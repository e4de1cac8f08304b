/** Renaming the receipt id of a response: when `normalize_response` hides it. */
module ReceiptRenaming {
  import opened Wrappers
  import opened Json
  import opened JsonCodec
  import opened GeneratedKeys
  import opened ReceiptLinks

  // ---- comparing values that were built by replacing one entry ----

  lemma {:induction false} SameAsItself(c: Codec, v: Value)
    requires Lawful(c)
    ensures SameButGenerated(c, v, v)
  {
    StripEqualIff(c, v, v);
  }

  ghost predicate Aligned(fs: seq<Field>, gs: seq<Field>) {
    |fs| == |gs| && forall i :: 0 <= i < |fs| ==> fs[i].key == gs[i].key
  }

  ghost predicate SameOrGenerated(c: Codec, f: Field, g: Field)
    requires Lawful(c)
  {
    f.key in GENERATED || SameButGenerated(c, f.value, g.value)
  }

  lemma {:induction false} SameFieldsCons(c: Codec, fs: seq<Field>, gs: seq<Field>)
    requires Lawful(c) && Aligned(fs, gs) && fs != []
    ensures SameFields(c, fs, gs) <==> SameOrGenerated(c, fs[0], gs[0]) && SameFields(c, fs[1..], gs[1..])
  {
    StripFieldsEqualIff(c, fs, gs);
    StripFieldsEqualIff(c, fs[1..], gs[1..]);
    StripEqualIff(c, fs[0].value, gs[0].value);
    if fs[0].key !in GENERATED {
      var s, t := StripFields(c, fs), StripFields(c, gs);
      assert s[1..] == StripFields(c, fs[1..]) && t[1..] == StripFields(c, gs[1..]);
      assert s == [s[0]] + s[1..] && t == [t[0]] + t[1..];
    }
  }

  lemma {:induction false} AlignedSame(c: Codec, fs: seq<Field>, gs: seq<Field>)
    requires Lawful(c) && Aligned(fs, gs)
    ensures SameFields(c, fs, gs) <==> forall i :: 0 <= i < |fs| ==> SameOrGenerated(c, fs[i], gs[i])
  {
    if fs != [] {
      AlignedSame(c, fs[1..], gs[1..]);
      SameFieldsCons(c, fs, gs);
      if forall i :: 0 <= i < |fs| ==> SameOrGenerated(c, fs[i], gs[i]) {
        forall i | 0 <= i < |fs[1..]| ensures SameOrGenerated(c, fs[1..][i], gs[1..][i]) {
          assert SameOrGenerated(c, fs[i + 1], gs[i + 1]);
        }
      }
      if SameFields(c, fs, gs) {
        forall i | 0 <= i < |fs| ensures SameOrGenerated(c, fs[i], gs[i]) {
          if i > 0 { assert SameOrGenerated(c, fs[1..][i - 1], gs[1..][i - 1]); }
        }
      }
    }
  }

  lemma {:induction false} SameItemsPointwise(c: Codec, xs: seq<Value>, ys: seq<Value>)
    requires Lawful(c) && |xs| == |ys|
    ensures SameItems(c, xs, ys) <==> forall i :: 0 <= i < |xs| ==> SameButGenerated(c, xs[i], ys[i])
  {
    if xs != [] {
      SameItemsPointwise(c, xs[1..], ys[1..]);
      if SameItems(c, xs, ys) {
        forall i | 0 <= i < |xs| ensures SameButGenerated(c, xs[i], ys[i]) {
          if i > 0 { assert SameButGenerated(c, xs[1..][i - 1], ys[1..][i - 1]); }
        }
      }
    }
  }

  predicate Has(v: Value, key: string) {
    v.Obj? && Find(v.fields, key).Some?
  }

  /** Two versions of one object that differ in one entry. */
  lemma {:induction false} SetMemberSame(c: Codec, v: Value, key: string, x: Value, y: Value)
    requires Lawful(c) && Has(v, key)
    ensures SameButGenerated(c, SetMember(v, key, x), SetMember(v, key, y))
            <==> key in GENERATED || SameButGenerated(c, x, y)
  {
    var at := Find(v.fields, key).value;
    var fs, gs := v.fields[at := Field(key, x)], v.fields[at := Field(key, y)];
    AlignedSame(c, fs, gs);
    forall i | 0 <= i < |fs| && i != at ensures SameOrGenerated(c, fs[i], gs[i]) {
      SameAsItself(c, fs[i].value);
    }
    assert SameOrGenerated(c, fs[at], gs[at]) <==> key in GENERATED || SameButGenerated(c, x, y);
  }

  lemma {:induction false} SetMemberTwice(v: Value, key: string, x: Value, y: Value)
    ensures SetMember(SetMember(v, key, x), key, y) == SetMember(v, key, y)
  {
    if Has(v, key) {
      FindAfterSet(v.fields, Find(v.fields, key).value, Field(key, x), key);
    }
  }

  lemma {:induction false} SetMemberToItself(v: Value, key: string)
    requires Has(v, key)
    ensures SetMember(v, key, Member(Some(v), key).value) == v
  {
  }

  lemma {:induction false} SetMemberCommutes(v: Value, k: string, x: Value, l: string, y: Value)
    requires k != l
    ensures SetMember(SetMember(v, k, x), l, y) == SetMember(SetMember(v, l, y), k, x)
  {
    if Has(v, k) { FindAfterSet(v.fields, Find(v.fields, k).value, Field(k, x), l); }
    if Has(v, l) { FindAfterSet(v.fields, Find(v.fields, l).value, Field(l, y), k); }
    if Has(v, k) && Has(v, l) {
      UpdatesCommute(v.fields, Find(v.fields, k).value, Field(k, x), Find(v.fields, l).value, Field(l, y));
    }
  }

  lemma {:induction false} UpdatesCommute(fields: seq<Field>, i: nat, f: Field, j: nat, g: Field)
    requires i < |fields| && j < |fields| && i != j
    ensures fields[i := f][j := g] == fields[j := g][i := f]
  {
  }

  // ---- the identity of the renamed response ----

  lemma {:induction false} PayloadsAgree(c: Codec, blocks: seq<Value>, expected: Option<string>, id: string)
    requires PayloadIdentity(c, blocks, expected) == Settled(Some(id))
    ensures expected == None || expected == Some(id)
    ensures forall i :: 0 <= i < |blocks| ==> PayloadId(c, blocks[i]) in {None, Some(id)}
  {
    if blocks != [] {
      var own := PayloadId(c, blocks[0]);
      PayloadsAgree(c, blocks[1..], if own.None? then expected else own, id);
      forall i | 0 <= i < |blocks| ensures PayloadId(c, blocks[i]) in {None, Some(id)} {
        if i > 0 { assert PayloadId(c, blocks[1..][i - 1]) in {None, Some(id)}; }
      }
    }
  }

  lemma {:induction false} PayloadIdAfter(payload: Value, id: string)
    requires Member(Member(Some(payload), "meta"), "receipt_id").Some?
    ensures Member(Member(Some(WithPayloadId(payload, id)), "meta"), "receipt_id") == Some(Str(id))
  {
    var meta := Member(Some(payload), "meta").value;
    MemberAfterSet(meta, "receipt_id", Str(id), "receipt_id");
    MemberAfterSet(payload, "meta", SetMember(meta, "receipt_id", Str(id)), "meta");
  }

  lemma {:induction false} RenamedBlockId(c: Codec, before: Value, after: Value, p: string, q: string)
    requires BlockRenamed(c, before, after, p, q) && PayloadId(c, before) in {None, Some(p)}
    ensures PayloadId(c, after) == if PayloadId(c, before).Some? then Some(q) else None
  {
    if PayloadId(c, before) == Some(p) {
      var text :| after == SetMember(before, "text", Str(text))
                  && c.decode(text) == Some(WithPayloadId(Payload(c, before).value, q));
      MemberAfterSet(before, "text", Str(text), "type");
      MemberAfterSet(before, "text", Str(text), "text");
      PayloadIdAfter(Payload(c, before).value, q);
    } else if LinksTo(before, p) {
      MemberAfterSet(before, "uri", Str(LINK_PREFIX + q), "type");
    }
  }

  ghost predicate BlocksRenamed(c: Codec, before: seq<Value>, after: seq<Value>, p: string, q: string) {
    |before| == |after| && forall i :: 0 <= i < |before| ==> BlockRenamed(c, before[i], after[i], p, q)
  }

  lemma {:induction false} RenamedIdentity(c: Codec, before: seq<Value>, after: seq<Value>, p: string, q: string,
                                           expected: Option<string>)
    requires NativeId(p) && NativeId(q) && BlocksRenamed(c, before, after, p, q)
    requires PayloadIdentity(c, before, expected) == Settled(Some(p))
    ensures PayloadIdentity(c, after, if expected.None? then None else Some(q)) == Settled(Some(q))
  {
    if before != [] {
      PayloadsAgree(c, before, expected, p);
      RenamedBlockId(c, before[0], after[0], p, q);
      var own := PayloadId(c, before[0]);
      forall i | 0 <= i < |before[1..]| ensures BlockRenamed(c, before[1..][i], after[1..][i], p, q) {
        assert BlockRenamed(c, before[i + 1], after[i + 1], p, q);
      }
      RenamedIdentity(c, before[1..], after[1..], p, q, if own.None? then expected else own);
    } else {
      PayloadsAgree(c, before, expected, p);
    }
  }

  // ---- one content block ----

  ghost predicate InBraces(c: Codec, block: Value) {
    PayloadId(c, block).Some? ==> StartsWithBrace(AsStr(Member(Some(block), "text")).value)
  }

  lemma {:induction false} PayloadsDiffer(c: Codec, payload: Value, p: string, q: string)
    requires p != q && AsStr(Member(Member(Some(payload), "meta"), "receipt_id")) == Some(p)
    ensures WithPayloadId(payload, q) != payload
  {
    PayloadIdAfter(payload, q);
  }

  lemma {:induction false} PayloadsSameButGenerated(c: Codec, payload: Value, q: string)
    requires Lawful(c)
    ensures SameButGenerated(c, payload, WithPayloadId(payload, q))
  {
    SameAsItself(c, payload);
    if Has(payload, "meta") {
      var meta := Member(Some(payload), "meta").value;
      SameAsItself(c, meta);
      if Has(meta, "receipt_id") {
        SetMemberSame(c, meta, "receipt_id", Member(Some(meta), "receipt_id").value, Str(q));
        SetMemberToItself(meta, "receipt_id");
      }
      SetMemberSame(c, payload, "meta", meta, SetMember(meta, "receipt_id", Str(q)));
      SetMemberToItself(payload, "meta");
    }
  }

  /** A link that names the new id already is kept before and rewritten after. */
  lemma {:induction false} LinkToNewIdDiffers(c: Codec, block: Value, p: string, q: string)
    requires Lawful(c) && NativeId(q) && p != q && LinksTo(block, q)
    ensures !SameButGenerated(c, Anonymised(block, p), Anonymised(block, q))
  {
    var uri := LINK_PREFIX + q;
    assert uri[|LINK_PREFIX|..] == q;
    assert (LINK_PREFIX + p)[|LINK_PREFIX|..] == p;
    SetMemberToItself(block, "uri");
    SetMemberSame(c, block, "uri", Str(uri), Str(GENERATED_LINK));
    assert uri[0] == 'l';
    assert GENERATED_LINK[|LINK_PREFIX|] == '<';
  }

  /** A renamed block normalises alike exactly when its payload, if it carries
      the id, is written in braces on both sides, and it is no link to the new id. */
  lemma {:induction false} BlockNormalisesAlike(c: Codec, before: Value, after: Value, p: string, q: string)
    requires Lawful(c) && NativeId(p) && NativeId(q) && p != q
    requires BlockRenamed(c, before, after, p, q) && PayloadId(c, before) in {None, Some(p)}
    ensures SameButGenerated(c, Anonymised(before, p), Anonymised(after, q))
            <==> InBraces(c, before) && InBraces(c, after) && !LinksTo(before, q)
  {
    RenamedBlockId(c, before, after, p, q);
    SameAsItself(c, before);
    if PayloadId(c, before) == Some(p) {
      var text :| after == SetMember(before, "text", Str(text))
                  && c.decode(text) == Some(WithPayloadId(Payload(c, before).value, q));
      RetextedBlock(c, before, text);
      PayloadBlockAlike(c, before, text, p, q);
    } else if LinksTo(before, p) {
      var uri := Str(LINK_PREFIX + q);
      MemberAfterSet(before, "uri", uri, "type");
      MemberAfterSet(before, "uri", uri, "name");
      MemberAfterSet(before, "uri", uri, "uri");
      SetMemberTwice(before, "uri", uri, Str(GENERATED_LINK));
      SameAsItself(c, Anonymised(before, p));
      assert (LINK_PREFIX + p)[|LINK_PREFIX|..] == p && (LINK_PREFIX + q)[|LINK_PREFIX|..] == q;
    } else if LinksTo(before, q) {
      LinkToNewIdDiffers(c, before, p, q);
    }
  }

  lemma {:induction false} TextsAlike(c: Codec, s: string, t: string)
    requires Lawful(c) && c.decode(s).Some? && c.decode(t).Some?
    requires c.decode(s) != c.decode(t) && SameButGenerated(c, c.decode(s).value, c.decode(t).value)
    ensures SameButGenerated(c, Str(s), Str(t)) <==> StartsWithBrace(s) && StartsWithBrace(t)
  {
  }

  lemma {:induction false} RetextedBlock(c: Codec, block: Value, text: string)
    requires Payload(c, block).Some?
    ensures var after := SetMember(block, "text", Str(text));
            Payload(c, after) == c.decode(text) && AsStr(Member(Some(after), "text")) == Some(text)
            && AsStr(Member(Some(after), "type")) == Some("text")
  {
    MemberAfterSet(block, "text", Str(text), "type");
    MemberAfterSet(block, "text", Str(text), "text");
  }

  lemma {:induction false} PayloadBlockAlike(c: Codec, before: Value, text: string, p: string, q: string)
    requires Lawful(c) && p != q && PayloadId(c, before) == Some(p)
    requires c.decode(text) == Some(WithPayloadId(Payload(c, before).value, q))
    ensures var after := SetMember(before, "text", Str(text));
            SameButGenerated(c, before, after)
            <==> StartsWithBrace(AsStr(Member(Some(before), "text")).value) && StartsWithBrace(text)
  {
    var own := AsStr(Member(Some(before), "text")).value;
    SetMemberToItself(before, "text");
    SetMemberSame(c, before, "text", Str(own), Str(text));
    PayloadsDiffer(c, Payload(c, before).value, p, q);
    PayloadsSameButGenerated(c, Payload(c, before).value, q);
    TextsAlike(c, own, text);
  }

  // ---- the whole response ----

  /** What renaming does below `result`, apart from the content. */
  function Restructured(result: Value, q: string): Value {
    match Member(Some(result), "structuredContent")
    case Some(sc) => SetMember(result, "structuredContent", WithPayloadId(sc, q))
    case None => result
  }

  lemma {:induction false} RestructuredContent(result: Value, blocks: seq<Value>, final: seq<Value>, q: string)
    ensures Restructured(SetMember(result, "content", Arr(blocks)), q)
            == SetMember(Restructured(result, q), "content", Arr(blocks))
    ensures SetMember(Restructured(SetMember(result, "content", Arr(blocks)), q), "content", Arr(final))
            == SetMember(Restructured(result, q), "content", Arr(final))
    ensures Member(Some(Restructured(result, q)), "content") == Member(Some(result), "content")
  {
    MemberAfterSet(result, "content", Arr(blocks), "structuredContent");
    var sc := Member(Some(result), "structuredContent");
    if sc.Some? {
      SetMemberCommutes(result, "content", Arr(blocks), "structuredContent", WithPayloadId(sc.value, q));
      MemberAfterSet(result, "structuredContent", WithPayloadId(sc.value, q), "content");
    }
    SetMemberTwice(Restructured(result, q), "content", Arr(blocks), Arr(final));
  }

  lemma {:induction false} RenamedShape(before: Value, blocks: seq<Value>, final: seq<Value>, q: string)
    requires ContentOf(before).Some?
    ensures var result := Member(Some(before), "result").value;
            var after := WithStructuredId(WithContent(before, blocks), q);
            ContentOf(after) == Some(blocks)
            && WithContent(after, final)
               == SetMember(before, "result", SetMember(Restructured(result, q), "content", Arr(final)))
  {
    var result := Member(Some(before), "result").value;
    var mid := SetMember(result, "content", Arr(blocks));
    var changed := Restructured(mid, q);
    RestructuredContent(result, blocks, final, q);
    MemberAfterSet(before, "result", mid, "result");
    SetMemberTwice(before, "result", mid, changed);
    assert WithStructuredId(WithContent(before, blocks), q) == SetMember(before, "result", changed);
    MemberAfterSet(before, "result", changed, "result");
    MemberAfterSet(Restructured(result, q), "content", Arr(blocks), "content");
    SetMemberTwice(before, "result", changed, SetMember(changed, "content", Arr(final)));
  }

  lemma {:induction false} RestructuredIsGenerated(c: Codec, result: Value, i: nat, q: string)
    requires Lawful(c) && result.Obj? && i < |result.fields|
    ensures Restructured(result, q).Obj? && Aligned(result.fields, Restructured(result, q).fields)
    ensures SameOrGenerated(c, result.fields[i], Restructured(result, q).fields[i])
  {
    SameAsItself(c, result.fields[i].value);
    PayloadsSameButGenerated(c, result.fields[i].value, q);
  }

  /** Under `result`, the structured payload never matters and the content always does. */
  lemma {:induction false} ResultsAlike(c: Codec, result: Value, own: seq<Value>, final: seq<Value>, q: string)
    requires Lawful(c) && Has(result, "content") && |own| == |final|
    ensures SameButGenerated(c, SetMember(result, "content", Arr(own)),
                             SetMember(Restructured(result, q), "content", Arr(final)))
            <==> SameItems(c, own, final)
  {
    var at := Find(result.fields, "content").value;
    RestructuredIsGenerated(c, result, at, q);
    ContentStaysPut(result, q);
    var fs := result.fields[at := Field("content", Arr(own))];
    var gs := Restructured(result, q).fields[at := Field("content", Arr(final))];
    AlignedSame(c, fs, gs);
    forall i | 0 <= i < |fs| && i != at ensures SameOrGenerated(c, fs[i], gs[i]) {
      RestructuredIsGenerated(c, result, i, q);
    }
    assert SameOrGenerated(c, fs[at], gs[at]) <==> SameItems(c, own, final);
  }

  lemma {:induction false} ContentStaysPut(result: Value, q: string)
    requires Has(result, "content")
    ensures Restructured(result, q).Obj?
            && Find(Restructured(result, q).fields, "content") == Find(result.fields, "content")
  {
    var sc := Find(result.fields, "structuredContent");
    if sc.Some? {
      FindAfterSet(result.fields, sc.value, Restructured(result, q).fields[sc.value], "content");
    }
  }

  lemma {:induction false} StructuredAfter(response: Value, blocks: seq<Value>, q: string)
    requires ContentOf(response).Some?
    ensures StructuredReceipt(WithStructuredId(WithContent(response, blocks), q)) ==
            if StructuredReceipt(response).Some? then Some(Str(q)) else None
  {
    var result := Member(Some(response), "result").value;
    var mid := SetMember(result, "content", Arr(blocks));
    MemberAfterSet(response, "result", mid, "result");
    MemberAfterSet(result, "content", Arr(blocks), "structuredContent");
    var sc := Member(Some(result), "structuredContent");
    if sc.Some? {
      var changed := SetMember(mid, "structuredContent", WithPayloadId(sc.value, q));
      MemberAfterSet(WithContent(response, blocks), "result", changed, "result");
      MemberAfterSet(mid, "structuredContent", WithPayloadId(sc.value, q), "structuredContent");
      if Has(sc.value, "meta") {
        var meta := Member(Some(sc.value), "meta").value;
        MemberAfterSet(meta, "receipt_id", Str(q), "receipt_id");
        MemberAfterSet(sc.value, "meta", SetMember(meta, "receipt_id", Str(q)), "meta");
      }
    }
  }

  lemma {:induction false} IdentityFrom(c: Codec, response: Value, blocks: seq<Value>, expected: Option<string>)
    requires StructuredIdentity(response) == Settled(expected) && ContentOf(response) == Some(blocks)
    ensures ResponseIdentity(c, response) == PayloadIdentity(c, blocks, expected)
  {
  }

  lemma {:induction false} RenamedIsSettled(c: Codec, before: Value, blocks: seq<Value>, p: string, q: string)
    requires NativeId(p) && NativeId(q) && ResponseIdentity(c, before) == Settled(Some(p))
    requires BlocksRenamed(c, ContentOf(before).value, blocks, p, q)
    ensures var after := WithStructuredId(WithContent(before, blocks), q);
            ContentOf(after) == Some(blocks) && ResponseIdentity(c, after) == Settled(Some(q))
  {
    var expected := StructuredIdentity(before).id;
    var after := WithStructuredId(WithContent(before, blocks), q);
    StructuredAfter(before, blocks, q);
    RenamedShape(before, blocks, blocks, q);
    RenamedIdentity(c, ContentOf(before).value, blocks, p, q, expected);
    var now := if expected.None? then None else Some(q);
    assert StructuredIdentity(after) == Settled(now);
    IdentityFrom(c, after, blocks, now);
  }

  lemma {:induction false} RenamedBlocksHiddenIff(c: Codec, before: Value, blocks: seq<Value>, p: string, q: string)
    requires Lawful(c) && NativeId(p) && NativeId(q) && p != q && ResponseIdentity(c, before) == Settled(Some(p))
    requires BlocksRenamed(c, ContentOf(before).value, blocks, p, q)
    ensures var after := WithStructuredId(WithContent(before, blocks), q);
            Strip(c, NormalizeLinks(c, before)) == Strip(c, NormalizeLinks(c, after))
            <==> AllInBraces(c, ContentOf(before).value) && AllInBraces(c, blocks) && !HasLinkTo(before, q)
  {
    var own := ContentOf(before).value;
    var after := WithStructuredId(WithContent(before, blocks), q);
    var left, right := AnonymisedAll(own, p), AnonymisedAll(blocks, q);
    RenamedIsSettled(c, before, blocks, p, q);
    RenamedContentsAlike(c, before, left, blocks, right, q);
    StripEqualIff(c, WithContent(before, left), WithContent(after, right));
    PayloadsAgree(c, own, StructuredIdentity(before).id, p);
    BlocksNormaliseAlike(c, own, blocks, p, q);
  }

  /** Replacing the one native receipt id of a response by another leaves
      `normalize_response` unchanged exactly when every payload text that carries
      the id starts with a brace, before and after, and no link names the new id
      already; the request ids of the two responses do not matter. */
  lemma {:induction false} RenamingIsHiddenIff(c: Codec, first: Value, second: Value, p: string, q: string)
    requires Lawful(c) && NativeId(p) && NativeId(q) && p != q
    requires ResponseIdentity(c, WithoutRequestId(first)) == Settled(Some(p))
    requires Renamed(c, WithoutRequestId(first), WithoutRequestId(second), p, q)
    ensures NormalizeResponse(c, first) == NormalizeResponse(c, second)
            <==> && PayloadsInBraces(c, WithoutRequestId(first)) && PayloadsInBraces(c, WithoutRequestId(second))
                 && !HasLinkTo(WithoutRequestId(first), q)
  {
    var blocks: seq<Value> :| RenamedWith(c, WithoutRequestId(first), WithoutRequestId(second), blocks, p, q);
    HiddenForBlocks(c, first, second, blocks, p, q);
  }

  lemma {:induction false} HiddenForBlocks(c: Codec, first: Value, second: Value, blocks: seq<Value>, p: string,
                                           q: string)
    requires Lawful(c) && NativeId(p) && NativeId(q) && p != q
    requires ResponseIdentity(c, WithoutRequestId(first)) == Settled(Some(p))
    requires RenamedWith(c, WithoutRequestId(first), WithoutRequestId(second), blocks, p, q)
    ensures NormalizeResponse(c, first) == NormalizeResponse(c, second)
            <==> && PayloadsInBraces(c, WithoutRequestId(first)) && PayloadsInBraces(c, WithoutRequestId(second))
                 && !HasLinkTo(WithoutRequestId(first), q)
  {
    var before, after := WithoutRequestId(first), WithoutRequestId(second);
    RenamedBlocksHiddenIff(c, before, blocks, p, q);
    RenamedIsSettled(c, before, blocks, p, q);
    BracesOfContent(c, before);
    BracesOfContent(c, after);
  }

  lemma {:induction false} BracesOfContent(c: Codec, response: Value)
    requires ContentOf(response).Some?
    ensures PayloadsInBraces(c, response) <==> AllInBraces(c, ContentOf(response).value)
  {
  }

  ghost predicate AllInBraces(c: Codec, blocks: seq<Value>) {
    forall i :: 0 <= i < |blocks| ==> InBraces(c, blocks[i])
  }

  /** Two responses that differ below `result` alone are alike when the results are. */
  lemma {:induction false} ResponsesAlike(c: Codec, before: Value, x: Value, y: Value)
    requires Lawful(c) && Has(before, "result")
    ensures SameButGenerated(c, SetMember(before, "result", x), SetMember(before, "result", y))
            <==> SameButGenerated(c, x, y)
  {
    SetMemberSame(c, before, "result", x, y);
  }

  lemma {:induction false} ContentBelowResult(before: Value, left: seq<Value>)
    requires ContentOf(before).Some?
    ensures var result := Member(Some(before), "result");
            result.Some? && Has(before, "result") && Has(result.value, "content")
            && WithContent(before, left) == SetMember(before, "result", SetMember(result.value, "content", Arr(left)))
  {
  }

  lemma {:induction false} RenamedContentsAlike(c: Codec, before: Value, left: seq<Value>, blocks: seq<Value>,
                                                right: seq<Value>, q: string)
    requires Lawful(c) && ContentOf(before).Some? && |left| == |right|
    ensures SameButGenerated(c, WithContent(before, left),
                             WithContent(WithStructuredId(WithContent(before, blocks), q), right))
            <==> SameItems(c, left, right)
  {
    ContentBelowResult(before, left);
    RenamedShape(before, blocks, right, q);
    var result := Member(Some(before), "result").value;
    var x, y := SetMember(result, "content", Arr(left)), SetMember(Restructured(result, q), "content", Arr(right));
    ResponsesAlike(c, before, x, y);
    ResultsAlike(c, result, left, right, q);
  }

  lemma {:induction false} BlocksNormaliseAlike(c: Codec, own: seq<Value>, blocks: seq<Value>, p: string, q: string)
    requires Lawful(c) && NativeId(p) && NativeId(q) && p != q && BlocksRenamed(c, own, blocks, p, q)
    requires forall i :: 0 <= i < |own| ==> PayloadId(c, own[i]) in {None, Some(p)}
    ensures SameItems(c, AnonymisedAll(own, p), AnonymisedAll(blocks, q))
            <==> AllInBraces(c, own) && AllInBraces(c, blocks) && forall i :: 0 <= i < |own| ==> !LinksTo(own[i], q)
  {
    var left, right := AnonymisedAll(own, p), AnonymisedAll(blocks, q);
    SameItemsPointwise(c, left, right);
    forall i | 0 <= i < |own|
      ensures SameButGenerated(c, left[i], right[i])
              <==> InBraces(c, own[i]) && InBraces(c, blocks[i]) && !LinksTo(own[i], q)
    {
      BlockNormalisesAlike(c, own[i], blocks[i], p, q);
    }
  }

  // ---- a response whose renaming shows ----

  function Single(key: string, v: Value): Value {
    Obj([Field(key, v)])
  }

  function ReceiptLink(id: string): Value {
    Obj([Field("type", Str("resource_link")), Field("name", Str("retrieval_receipt")),
         Field("uri", Str(LINK_PREFIX + id))])
  }

  /** A response that carries `own` in its structured payload and links to `linked`. */
  function Linking(own: string, linked: string): Value {
    Single("result", Obj([Field("content", Arr([ReceiptLink(linked)])),
                          Field("structuredContent", Single("meta", Single("receipt_id", Str(own))))]))
  }

  /** Its link names another receipt; after the renaming that is the response's own. */
  lemma {:induction false} LinkToNewIdShows(c: Codec, p: string, q: string)
    requires Lawful(c) && NativeId(p) && NativeId(q) && p != q
    ensures ResponseIdentity(c, Linking(p, q)) == Settled(Some(p)) && Renamed(c, Linking(p, q), Linking(q, q), p, q)
    ensures WithoutRequestId(Linking(p, q)) == Linking(p, q) && WithoutRequestId(Linking(q, q)) == Linking(q, q)
    ensures NormalizeResponse(c, Linking(p, q)) != NormalizeResponse(c, Linking(q, q))
  {
    LinkingParts(c, p, q);
    LinkingParts(c, q, q);
    LinkingRenamed(c, p, q);
    RenamingIsHiddenIff(c, Linking(p, q), Linking(q, q), p, q);
    assert LinksTo(ContentOf(Linking(p, q)).value[0], q);
  }

  lemma {:induction false} FieldsOf(fields: seq<Field>, key: string)
    ensures fields != [] && fields[0].key == key ==> Get(fields, key) == Some(fields[0].value)
    ensures fields != [] && fields[0].key != key ==> Get(fields, key) == Get(fields[1..], key)
  {
  }

  lemma {:induction false} LinkParts(id: string)
    ensures Member(Some(ReceiptLink(id)), "type") == Some(Str("resource_link"))
    ensures Member(Some(ReceiptLink(id)), "name") == Some(Str("retrieval_receipt"))
    ensures Member(Some(ReceiptLink(id)), "uri") == Some(Str(LINK_PREFIX + id))
  {
    var fields := ReceiptLink(id).fields;
    FieldsOf(fields, "name");
    FieldsOf(fields, "uri");
    FieldsOf(fields[1..], "uri");
  }

  lemma {:induction false} LinkingParts(c: Codec, own: string, linked: string)
    requires NativeId(own)
    ensures ContentOf(Linking(own, linked)) == Some([ReceiptLink(linked)])
    ensures StructuredReceipt(Linking(own, linked)) == Some(Str(own))
    ensures LinksTo(ReceiptLink(linked), linked) && PayloadId(c, ReceiptLink(linked)).None?
    ensures ResponseIdentity(c, Linking(own, linked)) == Settled(Some(own))
    ensures WithoutRequestId(Linking(own, linked)) == Linking(own, linked)
  {
    LinkParts(linked);
    var result := Member(Some(Linking(own, linked)), "result").value;
    FieldsOf(result.fields, "structuredContent");
    var blocks := [ReceiptLink(linked)];
    assert blocks[1..] == [];
    assert PayloadIdentity(c, blocks, Some(own)) == PayloadIdentity(c, blocks[1..], Some(own));
    IdentityFrom(c, Linking(own, linked), blocks, Some(own));
    var fields := Linking(own, linked).fields;
    assert |fields[0].key| == 6 && |"id"| == 2 && fields[1..] == [];
    assert DropKeys(fields, {"id"}) == [fields[0]] + DropKeys(fields[1..], {"id"});
  }

  lemma {:induction false} LinkingStructured(p: string, q: string)
    ensures WithStructuredId(Linking(p, q), q) == Linking(q, q)
  {
    var result := Member(Some(Linking(p, q)), "result").value;
    var sc := Single("meta", Single("receipt_id", Str(p)));
    FieldsOf(result.fields, "structuredContent");
    assert Find(result.fields, "structuredContent") == Some(1);
    assert Single("receipt_id", Str(p)).fields[0 := Field("receipt_id", Str(q))] == Single("receipt_id", Str(q)).fields;
    assert WithPayloadId(sc, q) == Single("meta", Single("receipt_id", Str(q)));
    assert result.fields[1 := Field("structuredContent", WithPayloadId(sc, q))]
           == Member(Some(Linking(q, q)), "result").value.fields;
  }

  lemma {:induction false} LinkingRenamed(c: Codec, p: string, q: string)
    requires NativeId(p) && NativeId(q) && p != q
    ensures Renamed(c, Linking(p, q), Linking(q, q), p, q)
  {
    var before := Linking(p, q);
    LinkingParts(c, p, q);
    assert (LINK_PREFIX + p)[|LINK_PREFIX|..] == p && (LINK_PREFIX + q)[|LINK_PREFIX|..] == q;
    assert BlockRenamed(c, ReceiptLink(q), ReceiptLink(q), p, q);
    SetMemberToItself(Member(Some(before), "result").value, "content");
    SetMemberToItself(before, "result");
    assert WithContent(before, [ReceiptLink(q)]) == before;
    LinkingStructured(p, q);
    assert RenamedWith(c, before, Linking(q, q), [ReceiptLink(q)], p, q);
  }
}

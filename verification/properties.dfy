/**
 Properties of the VML header propagation that relate several operations:
 publish/read, decode/encode round trips, independence of the client
 interceptors from map iteration order, and end-to-end propagation across
 one hop.
 */
module CtxVmlProperties {
  import opened Wrappers
  import Ascii
  import opened Metadata
  import opened CtxVml

  /** Publishing and then reading gives back the published record, a later
      publication shadows an earlier one, and a client call packs the
      published user name. */
  lemma PublishThenRead(ctx: Context, h1: VmlHeaders, h2: VmlHeaders)
    ensures Extract(WithValue(ctx, h1)) == h1
    ensures Extract(WithValue(WithValue(ctx, h1), h2)) == h2
    ensures PackCallerMetadata(WithValue(ctx, h1))[UsernameKey] == h1.username
  {
  }

  /** On a context without an association, publishing the zero record is
      unobservable: reads and the metadata a client call sends are the same
      as without it. */
  lemma ZeroAssociationUnobservable(ctx: Context, order: seq<string>)
    requires ctx.vml.None?
    requires Enumerates(order, WireKeys)
    ensures Extract(WithValue(ctx, NoHeaders)) == Extract(ctx)
    ensures InjectCallerMetadata(WithValue(ctx, NoHeaders), order).outgoing
         == InjectCallerMetadata(ctx, order).outgoing
  {
  }

  /** Decoding looks at the two wire keys only: metadata that agree on them
      decode alike. */
  lemma DecodeReadsOnlyWireKeys(md1: MD, md2: MD)
    requires Lookup(md1, UsernameKey) == Lookup(md2, UsernameKey)
    requires Lookup(md1, OcrCacheKey) == Lookup(md2, OcrCacheKey)
    ensures Decode(md1) == Decode(md2)
  {
  }

  /** The first value under a key wins, whatever follows it. */
  lemma DecodeFirstValueWins(md: MD, v: string, rest: seq<string>)
    ensures Decode(md[UsernameKey := [v] + rest]).username == v
    ensures Decode(md[OcrCacheKey := [v] + rest]).ocrCache == v
  {
  }

  /** Metadata lacking both keys (or carrying them with no values) decodes
      to the zero record; extraction still publishes it, and tags nothing. */
  lemma ExtractionWithoutHeaders(ctx: Context)
    requires Lookup(ctx.incoming, UsernameKey) == []
    requires Lookup(ctx.incoming, OcrCacheKey) == []
    ensures Decode(ctx.incoming) == NoHeaders
    ensures ExtractMetadataToContext(ctx).ctx.vml == Some(NoHeaders)
    ensures Extract(ExtractMetadataToContext(ctx).ctx) == NoHeaders
    ensures ExtractMetadataToContext(ctx).tag.None?
  {
  }

  /** Round trip: sending each packed value as the only value of its key
      and decoding the result gives back the record in the context. */
  lemma WireRoundTrip(ctx: Context)
    ensures Decode(SingletonLists(PackCallerMetadata(ctx))) == Extract(ctx)
  {
  }

  /** The client interceptors' result does not depend on the order in
      which the packed map is iterated. */
  lemma InjectionOrderIndependent(ctx: Context, order1: seq<string>, order2: seq<string>)
    requires Enumerates(order1, WireKeys)
    requires Enumerates(order2, WireKeys)
    ensures InjectCallerMetadata(ctx, order1) == InjectCallerMetadata(ctx, order2)
  {
    var r1 := InjectCallerMetadata(ctx, order1);
    var r2 := InjectCallerMetadata(ctx, order2);
    assert r1.outgoing.Keys == r2.outgoing.Keys;
    forall k | k in r1.outgoing
      ensures r1.outgoing[k] == r2.outgoing[k]
    {
      assert Lookup(r1.outgoing, k) == r1.outgoing[k];
      if k !in WireKeys {
        assert Lookup(r1.outgoing, k) == Lookup(ctx.outgoing, k) == Lookup(r2.outgoing, k);
      }
    }
    assert r1.outgoing == r2.outgoing;
  }

  /** If the outgoing metadata already carried values under a wire key, the
      next hop keeps decoding the earliest of them: appending never replaces. */
  lemma EarlierOutgoingValueWins(ctx: Context, order: seq<string>)
    requires Enumerates(order, WireKeys)
    ensures var sent := InjectCallerMetadata(ctx, order).outgoing;
            && Decode(sent).username
               == (if Lookup(ctx.outgoing, UsernameKey) != [] then ctx.outgoing[UsernameKey][0]
                   else Extract(ctx).username)
            && Decode(sent).ocrCache
               == (if Lookup(ctx.outgoing, OcrCacheKey) != [] then ctx.outgoing[OcrCacheKey][0]
                   else Extract(ctx).ocrCache)
  {
  }

  /** End to end across one hop: a server extracts from its incoming
      metadata, its handler makes a client call on the derived context with
      nothing yet in the outgoing metadata, and the call sends exactly one
      value per wire key, which the next server decodes to the same record. */
  lemma PropagationAcrossHop(ctx: Context, order: seq<string>)
    requires ctx.outgoing == map[]
    requires Enumerates(order, WireKeys)
    ensures var h := Decode(ctx.incoming);
            var sent := InjectCallerMetadata(ExtractMetadataToContext(ctx).ctx, order).outgoing;
            && sent == map[UsernameKey := [h.username], OcrCacheKey := [h.ocrCache]]
            && Decode(sent) == h
  {
    var h := Decode(ctx.incoming);
    var sent := InjectCallerMetadata(ExtractMetadataToContext(ctx).ctx, order).outgoing;
    var expected := map[UsernameKey := [h.username], OcrCacheKey := [h.ocrCache]];
    assert sent.Keys == expected.Keys;
    forall k | k in sent
      ensures sent[k] == expected[k]
    {
      assert Lookup(sent, k) == Lookup(expected, k);
    }
  }

  /** Incoming `vml-username: alice` alone: the handler reads `alice` and an
      empty OCR-cache value, `alice` is tagged, and a nested client call sends
      both keys. */
  lemma AliceScenario()
    ensures var ctx := Background.(incoming := map[UsernameKey := ["alice"]]);
            var e := ExtractMetadataToContext(ctx);
            && Extract(e.ctx) == VmlHeaders("alice", "")
            && e.tag == Some(Tag(UsernameTagKey, "alice"))
            && InjectCallerMetadata(e.ctx, [UsernameKey, OcrCacheKey]).outgoing
               == map[UsernameKey := ["alice"], OcrCacheKey := [""]]
  {
    var ctx := Background.(incoming := map[UsernameKey := ["alice"]]);
    PropagationAcrossHop(ctx, [UsernameKey, OcrCacheKey]);
  }

  /** The OCR cache is allowed exactly for the five-letter spellings of
      `allow` in any mix of ASCII upper and lower case. */
  lemma OcrCacheAllowSpelling(h: VmlHeaders)
    ensures OcrCacheAllow(h) <==>
              |h.ocrCache| == 5 &&
              forall i :: 0 <= i < 5 ==> h.ocrCache[i] == "allow"[i] || h.ocrCache[i] == "ALLOW"[i]
  {
    Ascii.ToLowerEqualsIff(h.ocrCache, "allow");
  }

  /** The flag on a few concrete values. */
  lemma OcrCacheAllowExamples()
    ensures OcrCacheAllow(VmlHeaders("", "Allow"))
    ensures OcrCacheAllow(VmlHeaders("", "ALLOW"))
    ensures !OcrCacheAllow(VmlHeaders("", "deny"))
    ensures !OcrCacheAllow(VmlHeaders("", ""))
    ensures !OcrCacheAllow(NoHeaders)
  {
  }

  /** The wrapped stream reports the derived context for as long as it is
      used, while sends and receives still reach the original transport. */
  lemma StreamWrapperOverridesContextOnly(s: ServerStream)
    ensures var w := StreamServerIntercept(s).stream;
            && StreamContext(w) == ExtractMetadataToContext(StreamContext(s)).ctx
            && TransportOf(w) == TransportOf(s)
  {
  }
}

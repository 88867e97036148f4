/**
 Propagation of the VML caller headers (`vml-username`, `vml-ocr-cache`)
 from incoming gRPC metadata, through a per-call context association, to
 outgoing gRPC metadata.

 A Go `context.Context` is modelled as an immutable value: the incoming
 metadata it was received with, the outgoing metadata appended to it so far,
 and the optional VML header association stored under the package's private
 marker key. Deriving a context is building a new value; the parent is never
 changed.
 */
module CtxVml {
  import opened Wrappers
  import Ascii
  import opened Metadata

  /** Wire key of the caller's user name. */
  const UsernameKey: string := "vml-username"
  /** Wire key of the OCR-cache control value. */
  const OcrCacheKey: string := "vml-ocr-cache"
  /** The two wire keys this package reads and writes. */
  const WireKeys: set<string> := {UsernameKey, OcrCacheKey}
  /** Key under which a non-empty user name is forwarded to the request tags. */
  const UsernameTagKey: string := "username"

  /** The decoded VML headers; an absent header is the empty string. */
  datatype VmlHeaders = VmlHeaders(username: string, ocrCache: string)

  /** The zero record, `VmlHeaders{}` in Go. */
  const NoHeaders := VmlHeaders("", "")

  /** Whether the OCR cache may be used: the value, lower-cased, is `allow`. */
  predicate OcrCacheAllow(h: VmlHeaders): (allow: bool)
    ensures allow <==> (|h.ocrCache| == 5 &&
                        forall i :: 0 <= i < 5 ==> h.ocrCache[i] == "allow"[i] || h.ocrCache[i] == "ALLOW"[i])
  {
    Ascii.ToLowerEqualsIff(h.ocrCache, "allow");
    Ascii.ToLower(h.ocrCache) == "allow"
  }

  /** A call context. */
  datatype Context = Context(incoming: MD, outgoing: MD, vml: Option<VmlHeaders>)

  /** A context that carries nothing: no metadata and no association. */
  const Background := Context(map[], map[], None)

  /** One `Set(key, value)` call on the request-tagging sink. */
  datatype Tag = Tag(key: string, value: string)

  /** A derived context together with the tag, if any, sent to the sink
      while deriving it. */
  datatype Extracted = Extracted(ctx: Context, tag: Option<Tag>)

  /** Read the VML headers of a context; a context without an association
      yields the zero record, never a failure. */
  function Extract(ctx: Context): (h: VmlHeaders)
    ensures ctx.vml.None? ==> h == NoHeaders
    ensures ctx.vml.Some? ==> h == ctx.vml.value
  {
    ctx.vml.GetOr(NoHeaders)
  }

  /** Derive a child context that carries `headers`. */
  function WithValue(ctx: Context, headers: VmlHeaders): (r: Context)
    ensures r.vml == Some(headers)
    ensures Extract(r) == headers
    ensures r.incoming == ctx.incoming && r.outgoing == ctx.outgoing
  {
    ctx.(vml := Some(headers))
  }

  /** Decode the VML headers from incoming metadata: each field takes the
      first value of its key, or stays empty when the key is absent or has
      no values. */
  function Decode(md: MD): (h: VmlHeaders)
    ensures Lookup(md, UsernameKey) == [] ==> h.username == ""
    ensures Lookup(md, UsernameKey) != [] ==> h.username == md[UsernameKey][0]
    ensures Lookup(md, OcrCacheKey) == [] ==> h.ocrCache == ""
    ensures Lookup(md, OcrCacheKey) != [] ==> h.ocrCache == md[OcrCacheKey][0]
  {
    VmlHeaders(FirstValue(md, UsernameKey), FirstValue(md, OcrCacheKey))
  }

  /** Server side: decode the incoming metadata, tag a non-empty user name,
      and publish the record in a derived context. The association is
      published even when neither key was received. */
  function ExtractMetadataToContext(ctx: Context): (r: Extracted)
    ensures r.ctx.vml.Some?
    ensures Extract(r.ctx) == Decode(ctx.incoming)
    ensures r.ctx.incoming == ctx.incoming && r.ctx.outgoing == ctx.outgoing
    ensures r.tag.Some? <==> Decode(ctx.incoming).username != ""
    ensures r.tag.Some? ==> r.tag.value == Tag(UsernameTagKey, Decode(ctx.incoming).username)
  {
    var headers := Decode(ctx.incoming);
    var tag := if headers.username != "" then Some(Tag(UsernameTagKey, headers.username)) else None;
    Extracted(WithValue(ctx, headers), tag)
  }

  /** Client side: the values to send, one per wire key, both always
      present even when empty. */
  function PackCallerMetadata(ctx: Context): (md: map<string, string>)
    ensures md.Keys == WireKeys
    ensures md[UsernameKey] == Extract(ctx).username
    ensures md[OcrCacheKey] == Extract(ctx).ocrCache
  {
    var headers := Extract(ctx);
    map[UsernameKey := headers.username, OcrCacheKey := headers.ocrCache]
  }

  /** Client side: the context handed to the invoker (unary) or streamer
      (streaming) after appending the packed values to the outgoing
      metadata, the packed map being visited in `order`. */
  function InjectCallerMetadata(ctx: Context, order: seq<string>): (r: Context)
    requires Enumerates(order, WireKeys)
    ensures r.incoming == ctx.incoming && r.vml == ctx.vml
    ensures Extract(r) == Extract(ctx)
    ensures r.outgoing.Keys == ctx.outgoing.Keys + WireKeys
    ensures Lookup(r.outgoing, UsernameKey) == Lookup(ctx.outgoing, UsernameKey) + [Extract(ctx).username]
    ensures Lookup(r.outgoing, OcrCacheKey) == Lookup(ctx.outgoing, OcrCacheKey) + [Extract(ctx).ocrCache]
    ensures forall k :: k !in WireKeys ==> Lookup(r.outgoing, k) == Lookup(ctx.outgoing, k)
  {
    var packed := PackCallerMetadata(ctx);
    var out := AppendInOrder(ctx.outgoing, packed, order);
    ctx.(outgoing := out)
  }

  /** A server stream handle. `Transport` is the framework's stream, opened
      with its own context; `WithContext` wraps a stream, forwarding every
      capability to it except the context accessor, which it overrides. */
  datatype ServerStream =
    | Transport(id: nat, openCtx: Context)
    | WithContext(inner: ServerStream, derived: Context)

  /** The stream's context accessor. */
  function StreamContext(s: ServerStream): (c: Context)
    ensures s.Transport? ==> c == s.openCtx
    ensures s.WithContext? ==> c == s.derived
  {
    match s
    case Transport(_, c) => c
    case WithContext(_, c) => c
  }

  /** The transport stream that message sends and receives go to. */
  function TransportOf(s: ServerStream): (t: ServerStream)
    ensures t.Transport?
    ensures s.Transport? ==> t == s
    ensures s.WithContext? ==> t == TransportOf(s.inner)
  {
    match s
    case Transport(_, _) => s
    case WithContext(inner, _) => TransportOf(inner)
  }

  /** A wrapped stream together with the tag sent while opening it. */
  datatype OpenedStream = OpenedStream(stream: ServerStream, tag: Option<Tag>)

  /** Server side, streaming: extraction runs once, on the stream's opening
      context, and the handler receives a stream whose context accessor
      returns the derived context. */
  function StreamServerIntercept(s: ServerStream): (r: OpenedStream)
    ensures Extract(StreamContext(r.stream)) == Decode(StreamContext(s).incoming)
    ensures StreamContext(r.stream).incoming == StreamContext(s).incoming
    ensures StreamContext(r.stream).outgoing == StreamContext(s).outgoing
    ensures TransportOf(r.stream) == TransportOf(s)
    ensures r.tag == ExtractMetadataToContext(StreamContext(s)).tag
  {
    var e := ExtractMetadataToContext(StreamContext(s));
    OpenedStream(WithContext(s, e.ctx), e.tag)
  }
}

# ctxvml: VML caller-header propagation, modelled in Dafny

The Go package `ctxvml` carries two caller headers, `vml-username` and
`vml-ocr-cache`, across gRPC calls. A server interceptor decodes them from
the incoming metadata into a `VmlHeaders` record. It publishes the record in
the call's context, and forwards a non-empty user name to the request-tagging
sink under `username`. A client interceptor reads the record back from the
context and appends both values to the outgoing metadata of any nested call.
For streaming calls, the server interceptor wraps the stream so that its
context accessor returns the derived context.

The model is purely functional:

- `wrappers.dfy`: `Option`.
- `ascii.dfy`: ASCII lower-casing, which stands in for `strings.ToLower`.
- `metadata.dfy`: metadata as `map<string, seq<string>>`. It also has the
  append done by `metadata.AppendToOutgoingContext`, and the
  `for k, v := range` append loop, visiting keys in an explicit order.
- `ctxvml.dfy`: the record and the context, with decode, publish, read, pack
  and inject. A context is an immutable value made of the incoming metadata,
  the outgoing metadata and an optional header association. It also has the
  stream wrapper.
- `properties.dfy`: lemmas that relate the operations.

Go gives no order for iterating a map. So the client interceptors take the
iteration order as a parameter, and `InjectionOrderIndependent` proves that
the order does not change the result. The unary and streaming client
interceptors have the same body (ctxvml.go:80-83 and ctxvml.go:92-95), so
`InjectCallerMetadata` models both. The handler, invoker and streamer are
calls into the gRPC framework. Each is modelled as the identity that receives
the derived context. So the unary server interceptor (ctxvml.go:29-34) is
`ExtractMetadataToContext` itself.

Three behaviours of the code are worth stating plainly:

- The incoming map is indexed with the exact keys `vml-username` and
  `vml-ocr-cache` (ctxvml.go:62,65). Key normalisation before that lookup is
  covered under "Left out".
- An association is always published, even when neither key arrives
  (ctxvml.go:71).
- Both keys are always packed for outgoing calls, even when their values are
  empty (ctxvml.go:105-106).

## Model

| member | source | states |
|---|---|---|
| CtxVml.Extract | ctxvml.go:111-117 | a context without an association reads as the zero record, never a failure; otherwise the published record |
| CtxVml.WithValue | ctxvml.go:120-122 | the derived context carries an association holding the published record, and reads back as it; incoming and outgoing metadata are unchanged |
| CtxVml.Decode | ctxvml.go:60-67 | each field is the first value of its key when the key is present with a non-empty list, else `""` |
| CtxVml.ExtractMetadataToContext | ctxvml.go:59-73 | an association is always published and reads back as the decoded record; metadata unchanged; a `username` tag is emitted exactly when the decoded user name is non-empty, and carries it |
| CtxVml.PackCallerMetadata | ctxvml.go:102-108 | exactly the two wire keys, holding the context's user name and OCR-cache value, even when empty |
| CtxVml.OcrCacheAllow | ctxvml.go:20-22 | true iff the OCR-cache value is `allow` spelt in any mix of ASCII upper and lower case, both directions |
| Metadata.Append | ctxvml.go:82 | the outgoing list under the key gains the value at its end; the key set grows by that key; every other key keeps its list (the streaming interceptor makes the same call at ctxvml.go:94) |
| Metadata.AppendInOrder | ctxvml.go:81-83 | each visited key gets its packed value appended after its existing values; every other key keeps its values |
| CtxVml.InjectCallerMetadata | ctxvml.go:80-84 | the invoker's context has each wire key's outgoing list extended by the context's value for it; other outgoing keys, the incoming metadata and the association itself (present or absent) are unchanged |
| CtxVml.StreamContext | ctxvml.go:54-56 | the wrapper's context accessor returns the context it was built with |
| CtxVml.TransportOf | ctxvml.go:49-52 | a wrapper forwards to the transport of the stream it wraps, so the result is always the transport stream underneath; a transport stream is its own transport |
| CtxVml.StreamServerIntercept | ctxvml.go:38-47 | the handler's stream reports a context whose record is decoded from the opening context's incoming metadata; it forwards to the same transport; the tag is the one extraction emits |
| Ascii.ToLower | ctxvml.go:21 | same length, every character lower-cased |
| Ascii.ToLowerEqualsIff | ctxvml.go:21 | lower-casing equals an all-lower-case word exactly when the input spells it letter by letter, ignoring ASCII case |
| CtxVmlProperties.OcrCacheAllowSpelling | ctxvml.go:20-22 | `OcrCacheAllow` holds iff the value is `allow` in some mix of upper and lower case, both directions |
| CtxVmlProperties.OcrCacheAllowExamples | ctxvml.go:20-22 | `Allow` and `ALLOW` allow; `deny` and `""` do not |
| CtxVmlProperties.PublishThenRead | ctxvml.go:104-122 | reading after publishing gives the published record; a later publication shadows an earlier one; a client call packs the published user name |
| CtxVmlProperties.ZeroAssociationUnobservable | ctxvml.go:111-116 | on a context with no association, publishing the zero record changes neither reads nor what a client call sends |
| CtxVmlProperties.DecodeReadsOnlyWireKeys | ctxvml.go:60-67 | metadata that agree on the two wire keys decode to the same record |
| CtxVmlProperties.DecodeFirstValueWins | ctxvml.go:62-66 | with several values under a key, the first one is decoded |
| CtxVmlProperties.ExtractionWithoutHeaders | ctxvml.go:60-71 | without either key, the zero record is still published and read back, and no tag is emitted |
| CtxVmlProperties.WireRoundTrip | ctxvml.go:59-108 | decoding the packed values, one per key, gives back the record in the context |
| CtxVmlProperties.InjectionOrderIndependent | ctxvml.go:80-83 | the client interceptors' result is the same for both iteration orders of the packed map |
| CtxVmlProperties.EarlierOutgoingValueWins | ctxvml.go:80-83 | appending never replaces: the next hop decodes the earliest outgoing value under a key, and the injected value only when none was there |
| CtxVmlProperties.PropagationAcrossHop | ctxvml.go:59-108 | after extraction, a nested client call on empty outgoing metadata hands the invoker exactly one value per wire key, which decodes to the incoming record |
| CtxVmlProperties.AliceScenario | ctxvml.go:59-108 | incoming `vml-username: alice` is read back as (`alice`, `""`), is tagged, and is re-sent as `{vml-username: [alice], vml-ocr-cache: [""]}` |
| CtxVmlProperties.StreamWrapperOverridesContextOnly | ctxvml.go:49-56 | the wrapped stream's context is the derived one, and its transport is the original stream's |

## Left out

- The gRPC framework is left out: interceptor registration, `handler`, `invoker`, `streamer`, `ClientConn` and call options. These are foreign calls. Dispatch is modelled as the identity that receives the derived context, and errors from it pass through unexamined.
- `grpc_ctxtags` internals are left out (ctxvml.go:69). A tag is an optional `Tag("username", value)` result, not a write into a tag store.
- Ascii.ToLower: maps only ASCII `A`-`Z`. Go's `strings.ToLower` maps every Unicode letter, so this is a simplification.
- `metadata.AppendToOutgoingContext` lower-cases keys. The model omits that, because both wire keys are already lower-case.
- The outgoing metadata is modelled as the merged view that `metadata.FromOutgoingContext` returns. The separate "added" list is not kept.
- Incoming key normalisation by the transport is left out. The incoming metadata is taken as the map `metadata.FromIncomingContext` returns, and a missing map is the empty map.
- Context deadlines, cancellation and other context values are left out. So is concurrency: calls share no mutable state, and contexts are immutable values here.
- `Extract` returns a pointer in Go; the model returns the record by value.
- The `x-ssn-username` header family is not part of this model: `ctxvml.go` does not define it. `ctxvml_test.go` uses `SsnHeaders` and `x-ssn-username`, which `ctxvml.go` does not define, so that test is not modelled.
- CtxVmlProperties.PropagationAcrossHop: states what the invoker receives, with the invoker as the identity. gRPC's check of metadata values is not modelled: it allows only printable ASCII in values of keys not ending in `-bin`, and grpc-go fails the call otherwise. A user name with, for example, a newline or a non-ASCII letter is therefore never actually sent.
- CtxVmlProperties.WireRoundTrip: holds for every string value, because the same transport check of metadata values is not modelled.

/** gapi/metadata.go: incoming gRPC metadata and the client information the
    server extracts from it. */
module GrpcMetadata {
  import opened Wrappers
  
  /** metadata.MD: header name to its list of values. */
  type MD = map<string, seq<string>>

  /** The request context as far as the handlers look at it: the incoming
      metadata, if any, and the peer's address as `p.Addr.String()` renders
      it, if a peer is attached. */
  datatype Context = Context(incoming: Option<MD>, peer: Option<string>)

  const GrpcGatewayUserAgentHeader: string := "grpcgateway-user-agent"
  const XForwardedForHeader: string := "x-forwarded-for"
  const UserAgentHeader: string := "user-agent"

  /** MD.Get. Go lower-cases the key before the lookup; every key this core
      passes is a lower-case constant, so the lookup is by the key itself. */
  function Get(md: MD, key: string): (values: seq<string>)
    ensures key in md ==> values == md[key]
    ensures key !in md ==> values == []
  {
    if key in md then md[key] else []
  }

  datatype Metadata = Metadata(userAgent: string, clientIp: string)

  /** The first value of the first header in `keys` that has one, or "". This
      is the precedence rule stated declaratively, highest priority first. */
  function FirstValue(md: MD, keys: seq<string>): string {
    if |keys| == 0 then ""
    else if |Get(md, keys[0])| > 0 then Get(md, keys[0])[0]
    else FirstValue(md, keys[1..])
  }

  lemma FirstValueOfTwo(md: MD, a: string, b: string)
    ensures FirstValue(md, [a, b]) ==
      if |Get(md, a)| > 0 then Get(md, a)[0]
      else if |Get(md, b)| > 0 then Get(md, b)[0]
      else ""
  {
    assert [a, b][1..] == [b];
    assert [b][1..] == [];
    assert FirstValue(md, []) == "";
    assert FirstValue(md, [b]) == if |Get(md, b)| > 0 then Get(md, b)[0] else FirstValue(md, []);
  }

  /** extractMetadata: each present source overwrites the field in program
      order (gateway user agent, user agent, forwarded-for, peer). Read
      declaratively: `user-agent` beats `grpcgateway-user-agent`, the peer
      beats `x-forwarded-for`, and each header contributes its first value. */
  function ExtractMetadata(ctx: Context): (m: Metadata)
    ensures ctx.incoming.Some? ==>
      m.userAgent == FirstValue(ctx.incoming.value, [UserAgentHeader, GrpcGatewayUserAgentHeader])
    ensures ctx.incoming.None? ==> m.userAgent == ""
    ensures ctx.peer.Some? ==> m.clientIp == ctx.peer.value
    ensures ctx.peer.None? && ctx.incoming.Some? ==>
      m.clientIp == FirstValue(ctx.incoming.value, [XForwardedForHeader])
    ensures ctx.peer.None? && ctx.incoming.None? ==> m.clientIp == ""
  {
    var m0 := Metadata("", "");
    var m3 :=
      if ctx.incoming.Some? then
        var md := ctx.incoming.value;
        FirstValueOfTwo(md, UserAgentHeader, GrpcGatewayUserAgentHeader);
        assert [XForwardedForHeader][1..] == [];
        var gateway := Get(md, GrpcGatewayUserAgentHeader);
        var m1 := if |gateway| > 0 then m0.(userAgent := gateway[0]) else m0;
        var agents := Get(md, UserAgentHeader);
        var m2 := if |agents| > 0 then m1.(userAgent := agents[0]) else m1;
        var clientIps := Get(md, XForwardedForHeader);
        if |clientIps| > 0 then m2.(clientIp := clientIps[0]) else m2
      else m0;
    if ctx.peer.Some? then m3.(clientIp := ctx.peer.value) else m3
  }

  /** When both user-agent headers are present, `user-agent` wins. */
  lemma UserAgentBeatsGatewayHeader(md: MD, peer: Option<string>)
    requires UserAgentHeader in md && |md[UserAgentHeader]| > 0
    ensures ExtractMetadata(Context(Some(md), peer)).userAgent == md[UserAgentHeader][0]
  {
  }

  /** Without `user-agent`, the gateway header's first value is used. */
  lemma GatewayHeaderAsFallback(md: MD, peer: Option<string>)
    requires UserAgentHeader !in md || |md[UserAgentHeader]| == 0
    requires GrpcGatewayUserAgentHeader in md && |md[GrpcGatewayUserAgentHeader]| > 0
    ensures ExtractMetadata(Context(Some(md), peer)).userAgent == md[GrpcGatewayUserAgentHeader][0]
  {
  }

  /** The peer's address overrides `x-forwarded-for`. */
  lemma PeerBeatsForwardedFor(md: Option<MD>, addr: string)
    ensures ExtractMetadata(Context(md, Some(addr))).clientIp == addr
  {
  }

  /** With neither metadata nor a peer both fields stay empty. */
  lemma NoSourcesNoMetadata()
    ensures ExtractMetadata(Context(None, None)) == Metadata("", "")
  {
  }

  /** The user agent depends neither on the peer nor on `x-forwarded-for`,
      and the client IP does not depend on either user-agent header. */
  lemma SourcesAreIndependent(md: MD, peer1: Option<string>, peer2: Option<string>, agents: seq<string>, gateway: seq<string>, ips: seq<string>)
    ensures ExtractMetadata(Context(Some(md), peer1)).userAgent == ExtractMetadata(Context(Some(md), peer2)).userAgent
    ensures ExtractMetadata(Context(Some(md[XForwardedForHeader := ips]), peer1)).userAgent ==
      ExtractMetadata(Context(Some(md), peer1)).userAgent
    ensures var md' := md[UserAgentHeader := agents][GrpcGatewayUserAgentHeader := gateway];
      ExtractMetadata(Context(Some(md'), peer1)).clientIp == ExtractMetadata(Context(Some(md), peer1)).clientIp
  {
  }

  /** Only the first value of a header matters; later values are ignored. */
  lemma OnlyFirstValueUsed(md: MD, key: string, v: string, rest: seq<string>, peer: Option<string>)
    requires key in {UserAgentHeader, GrpcGatewayUserAgentHeader, XForwardedForHeader}
    ensures ExtractMetadata(Context(Some(md[key := [v] + rest]), peer)) == ExtractMetadata(Context(Some(md[key := [v]]), peer))
  {
  }
}

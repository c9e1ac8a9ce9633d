/**
 One remote call from end to end: client::call packs and frames, the server decodes, finds the
 bound function, unpacks and calls it, frames the result, and the client reads and unpacks it.
 */
module RemoteCall {
  import opened Wire
  import opened Invoker

  datatype Registry<!Type, !V> =
    Registry(functions: map<Bytes, Function<Type, V>>, rawFunctions: map<Bytes, RawFunction>)

  /** What the server does with one request: the calls it makes, and its reply or disconnect. */
  datatype Served<+V> = Served(calls: seq<seq<V>>, rawCalls: seq<Bytes>, reply: Result<Bytes>)

  /** router::route followed by the task it queues, easyrpc/server/router.hpp:160-190. */
  function Dispatch<Type, V, Parser>(
    c: Codec<Type, V, Parser>, reg: Registry<Type, V>, protocol: Bytes, mode: U32, body: Bytes): Served<V>
  {
    if mode == NON_RAW && protocol in reg.functions then
      var t := RunTask(c, reg.functions[protocol], body);
      Served(t.calls, [], t.reply)
    else if mode == RAW && protocol in reg.rawFunctions then
      var t := RunRawTask(reg.rawFunctions[protocol], body);
      Served([], t.calls, t.reply)
    else Served([], [], Error("Router failed"))
  }

  /** The server on all the bytes that one connection delivers. */
  function Serve<Type, V, Parser>(c: Codec<Type, V, Parser>, reg: Registry<Type, V>, stream: Bytes): Served<V> {
    match Decode(stream)
    case Routed(protocol, mode, body, _) => Dispatch(c, reg, protocol, mode, body)
    case _ => Served([], [], Error("disconnected"))
  }

  /** rpc_session::call against a server: the reply body, and what the server did. */
  function Exchange<Type, V, Parser>(
    c: Codec<Type, V, Parser>, reg: Registry<Type, V>, protocol: Bytes, mode: U32, body: Bytes)
    : (Result<Bytes>, Served<V>)
  {
    match EncodeRequest(protocol, mode, body)
    case Error(m) => (Error(m), Served([], [], Error("not sent")))
    case Ok(frame) =>
      var served := Serve(c, reg, frame);
      match served.reply
      case Error(m) => (Error("End of file"), served)
      case Ok(reply) =>
        match DecodeResponse(reply)
        case Body(result, _) => (Ok(result), served)
        case EndOfStream => (Error("End of file"), served)
        case TooBig => (Error("Body len is too big"), served)
  }

  /** protocol_define::unpack: the one value of type `ty` that the text holds. */
  function UnpackOne<Type, V, Parser>(c: Codec<Type, V, Parser>, ty: Type, text: Bytes): Result<V> {
    match c.open(text)
    case Error(m) => Error(m)
    case Ok(parser) => match c.top(parser, ty) case Error(m) => Error(m) case Ok((v, _)) => Ok(v)
  }

  /** client::call for a non-void return type, easyrpc/client/client.hpp:72-81. */
  function ClientCall<Type, V, Parser>(
    c: Codec<Type, V, Parser>, reg: Registry<Type, V>, protocol: Bytes, ret: Type, args: seq<V>)
    : (Result<V>, Served<V>)
  {
    match c.pack(args)
    case Error(m) => (Error(m), Served([], [], Error("not sent")))
    case Ok(body) =>
      var (text, served) := Exchange(c, reg, protocol, NON_RAW, body);
      match text
      case Error(m) => (Error(m), served)
      case Ok(t) => (UnpackOne(c, ret, t), served)
  }

  predicate HaveTypes<Type, V, Parser>(c: Codec<Type, V, Parser>, vs: seq<V>, types: seq<Type>) {
    |vs| == |types| && forall i :: 0 <= i < |vs| ==> c.hasType(vs[i], types[i])
  }

  /** The hypothesis on the serializer: unpacking at the right types inverts packing. */
  ghost predicate RoundTrips<Type(!new), V(!new), Parser(!new)>(c: Codec<Type, V, Parser>) {
    forall vs: seq<V>, types: seq<Type> :: HaveTypes(c, vs, types) && c.pack(vs).Ok? ==> Inverts(c, vs, types)
  }

  ghost predicate Inverts<Type, V, Parser>(c: Codec<Type, V, Parser>, vs: seq<V>, types: seq<Type>)
    requires c.pack(vs).Ok?
  {
    var parser := c.open(c.pack(vs).value);
    match parser
    case Error(_) => false
    case Ok(p) =>
      match UnpackAll(c, types, p)
      case Error(_) => false
      case Ok(us) => |us| == |vs| && us == vs
  }

  /** A request that passes both length checks reaches the dispatcher unchanged. */
  lemma ServeFrame<Type, V, Parser>(
    c: Codec<Type, V, Parser>, reg: Registry<Type, V>, protocol: Bytes, mode: U32, body: Bytes)
    requires 0 < |protocol| + |body| < MAX_BUFFER_LEN
    ensures var frame := EncodeRequest(protocol, mode, body);
            frame.Ok? && Serve(c, reg, frame.value) == Dispatch(c, reg, protocol, mode, body)
  {
    ClientSendsIff(protocol, mode, body);
    RequestRoundTrip(protocol, mode, body, []);
    var frame := EncodeRequest(protocol, mode, body).value;
    assert frame + [] == frame;
  }

  /** A reply within the limit reaches the client unchanged. */
  lemma ReplyArrives(result: Bytes)
    requires |result| <= MAX_BUFFER_LEN
    ensures EncodeResponse(result).Ok? && DecodeResponse(EncodeResponse(result).value) == Body(result, [])
  {
    ResponseRoundTrip(result, []);
    assert EncodeResponse(result).value + [] == EncodeResponse(result).value;
  }

  /** The server on a framed call of a bound function: one invocation on the arguments, and its packed result as reply. */
  lemma ServedCall<Type(!new), V(!new), Parser(!new)>(
    c: Codec<Type, V, Parser>, reg: Registry<Type, V>, protocol: Bytes, args: seq<V>)
    requires RoundTrips(c)
    requires protocol in reg.functions && HaveTypes(c, args, reg.functions[protocol].params)
    requires c.pack(args).Ok? && 0 < |protocol| + |c.pack(args).value| < MAX_BUFFER_LEN
    ensures var frame := EncodeRequest(protocol, NON_RAW, c.pack(args).value);
            frame.Ok? && Serve(c, reg, frame.value) ==
                         Served([args], [], EncodeResponse(ResultOf(c, reg.functions[protocol], args)))
  {
    var f, body := reg.functions[protocol], c.pack(args).value;
    ServeFrame(c, reg, protocol, NON_RAW, body);
    assert Inverts(c, args, f.params);
    TaskMeaning(c, f, body);
  }

  /**
   Whatever the bound function does with the caller's arguments: it is invoked exactly once, on
   those arguments; the client receives its packed result, or an empty body when it throws or
   its value cannot be packed, or the end of the stream when the result is above the limit.
   */
  lemma ExchangeOutcome<Type(!new), V(!new), Parser(!new)>(
    c: Codec<Type, V, Parser>, reg: Registry<Type, V>, protocol: Bytes, args: seq<V>)
    requires RoundTrips(c)
    requires protocol in reg.functions && HaveTypes(c, args, reg.functions[protocol].params)
    requires c.pack(args).Ok? && 0 < |protocol| + |c.pack(args).value| < MAX_BUFFER_LEN
    requires |ResultOf(c, reg.functions[protocol], args)| < TWO_TO_THE_32
    ensures var (text, served) := Exchange(c, reg, protocol, NON_RAW, c.pack(args).value);
            var result := ResultOf(c, reg.functions[protocol], args);
            && served.calls == [args] && served.rawCalls == []
            && text == if |result| <= MAX_BUFFER_LEN then Ok(result) else Error("End of file")
  {
    ServedCall(c, reg, protocol, args);
    var result := ResultOf(c, reg.functions[protocol], args);
    ResponseAgreement(result, 0, []);
    if |result| <= MAX_BUFFER_LEN {
      ReplyArrives(result);
    }
  }

  /**
   A remote call is a local call: with a serializer that round-trips, a bound function of any
   arity is invoked exactly once, on the caller's arguments, and the caller gets its value.
   */
  lemma RemoteCallIsLocalCall<Type(!new), V(!new), Parser(!new)>(
    c: Codec<Type, V, Parser>, reg: Registry<Type, V>, protocol: Bytes, ret: Type, args: seq<V>, value: V)
    requires RoundTrips(c)
    requires protocol in reg.functions && HaveTypes(c, args, reg.functions[protocol].params)
    requires c.pack(args).Ok? && 0 < |protocol| + |c.pack(args).value| < MAX_BUFFER_LEN
    requires reg.functions[protocol].run(args) == Ok(Value(value)) && c.hasType(value, ret)
    requires c.pack([value]).Ok? && |c.pack([value]).value| <= MAX_BUFFER_LEN
    ensures var (result, served) := ClientCall(c, reg, protocol, ret, args);
            result == Ok(value) && served.calls == [args] && served.rawCalls == []
  {
    ExchangeOutcome(c, reg, protocol, args);
    ValueUnpacks(c, value, ret);
  }

  lemma ValueUnpacks<Type(!new), V(!new), Parser(!new)>(c: Codec<Type, V, Parser>, value: V, ret: Type)
    requires RoundTrips(c) && c.hasType(value, ret) && c.pack([value]).Ok?
    ensures UnpackOne(c, ret, c.pack([value]).value) == Ok(value)
  {
    assert HaveTypes(c, [value], [ret]);
    assert Inverts(c, [value], [ret]);
  }

  /** Arguments that cannot be packed, or a request above 8388608 bytes: the caller gets the error and nothing is sent. */
  lemma UnsentCallFails<Type, V, Parser>(
    c: Codec<Type, V, Parser>, reg: Registry<Type, V>, protocol: Bytes, ret: Type, args: seq<V>)
    requires c.pack(args).Error? || (|protocol| + |c.pack(args).value|) % 0x1_0000_0000 > 8388608
    ensures var (result, served) := ClientCall(c, reg, protocol, ret, args);
            result.Error? && served.calls == [] && served.rawCalls == [] && served.reply.Error?
  {
    if c.pack(args).Ok? {
      ClientSendsIff(protocol, NON_RAW, c.pack(args).value);
      UnsentExchange(c, reg, protocol, NON_RAW, c.pack(args).value);
    }
  }

  lemma UnsentExchange<Type, V, Parser>(
    c: Codec<Type, V, Parser>, reg: Registry<Type, V>, protocol: Bytes, mode: U32, body: Bytes)
    requires EncodeRequest(protocol, mode, body).Error?
    ensures var (result, served) := Exchange(c, reg, protocol, mode, body);
            result.Error? && served.calls == [] && served.rawCalls == [] && served.reply.Error?
  {
  }

  /** Whatever is bound elsewhere: a call of an unbound name, or in an unknown mode, runs nothing and ends the stream. */
  lemma UnboundCallFails<Type, V, Parser>(
    c: Codec<Type, V, Parser>, reg: Registry<Type, V>, protocol: Bytes, mode: U32, body: Bytes)
    requires !(mode == 1 && protocol in reg.functions) && !(mode == 0 && protocol in reg.rawFunctions)
    requires |protocol| + |body| < TWO_TO_THE_32
    ensures var (result, served) := Exchange(c, reg, protocol, mode, body);
            result.Error? && served.calls == [] && served.rawCalls == [] && served.reply.Error?
  {
    if EncodeRequest(protocol, mode, body).Ok? {
      RequestRoundTrip(protocol, mode, body, []);
      assert EncodeRequest(protocol, mode, body).value + [] == EncodeRequest(protocol, mode, body).value;
    }
  }

  /**
   What a caller gets back, by what the bound function does: the packed value, the packed nothing of a void
   function, and an empty body from one that throws or whose value cannot be packed.
   */
  lemma ReplyByOutcome<Type(!new), V(!new), Parser(!new)>(
    c: Codec<Type, V, Parser>, reg: Registry<Type, V>, protocol: Bytes, args: seq<V>)
    requires RoundTrips(c)
    requires protocol in reg.functions && HaveTypes(c, args, reg.functions[protocol].params)
    requires c.pack(args).Ok? && 0 < |protocol| + |c.pack(args).value| < MAX_BUFFER_LEN
    ensures var text, ran := Exchange(c, reg, protocol, NON_RAW, c.pack(args).value).0, reg.functions[protocol].run(args);
            && (ran.Error? ==> text == Ok([]))
            && (ran.Ok? ==>
                  var packed := c.pack(if ran.value.Void? then [] else [ran.value.value]);
                  && (packed.Error? ==> text == Ok([]))
                  && (packed.Ok? && |packed.value| <= 8388608 ==> text == Ok(packed.value))
                  && (packed.Ok? && 8388608 < |packed.value| < 0x1_0000_0000 ==> text.Error?))
  {
    if |ResultOf(c, reg.functions[protocol], args)| < TWO_TO_THE_32 {
      ExchangeOutcome(c, reg, protocol, args);
    }
  }

  /** A raw call carries its bytes unchanged both ways; a throwing or void handler gives the empty reply. */
  lemma RawCallIsLocalCall<Type, V, Parser>(
    c: Codec<Type, V, Parser>, reg: Registry<Type, V>, protocol: Bytes, body: Bytes)
    requires protocol in reg.rawFunctions && 0 < |protocol| + |body| < MAX_BUFFER_LEN
    ensures var (result, served) := Exchange(c, reg, protocol, RAW, body);
            var ran := reg.rawFunctions[protocol].run(body);
            && served.rawCalls == [body] && served.calls == []
            && (ran.Error? || ran.value.Void? ==> result == Ok([]))
            && (ran.Ok? && ran.value.Value? && |ran.value.value| <= 8388608 ==> result == Ok(ran.value.value))
            && (ran.Ok? && ran.value.Value? && 8388608 < |ran.value.value| < 0x1_0000_0000 ==> result.Error?)
  {
    ServedRawCall(c, reg, protocol, body);
    var result := RawResult(reg.rawFunctions[protocol], body);
    if |result| <= MAX_BUFFER_LEN {
      ReplyArrives(result);
    } else if |result| < TWO_TO_THE_32 {
      ResponseAgreement(result, 0, []);
    }
  }

  /** The server on a framed raw call: one invocation on the body, and what it returned as reply. */
  lemma ServedRawCall<Type, V, Parser>(
    c: Codec<Type, V, Parser>, reg: Registry<Type, V>, protocol: Bytes, body: Bytes)
    requires protocol in reg.rawFunctions && 0 < |protocol| + |body| < MAX_BUFFER_LEN
    ensures var frame := EncodeRequest(protocol, RAW, body);
            frame.Ok? && Serve(c, reg, frame.value) ==
                         Served([], [body], EncodeResponse(RawResult(reg.rawFunctions[protocol], body)))
  {
    ServeFrame(c, reg, protocol, RAW, body);
  }
}

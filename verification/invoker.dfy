/**
 Calling a bound function from packed bytes: router::invoker, call, invoker_raw and the two
 operator() of easyrpc/server/router.hpp.  The serializer is abstract; exceptions are explicit.
 */
module Invoker {
  import opened Wire

  /** What a C++ function returns: nothing, or a value. */
  datatype Returned<+V> = Void | Value(value: V)

  /**
   The serializer behind easypack: `pack` is pack(...), `open` the constructor of parser_util,
   and `top` its get<T>() for a type T.  Every one of them may throw.
   */
  datatype Codec<!Type, !V, !Parser> = Codec(
    pack: seq<V> -> Result<Bytes>,
    open: Bytes -> Result<Parser>,
    top: (Parser, Type) -> Result<(V, Parser)>,
    hasType: (V, Type) -> bool)

  /** A function given to bind: its parameter types and its behaviour, which may be to throw. */
  datatype Function<!Type, !V> = Function(params: seq<Type>, run: seq<V> -> Result<Returned<V>>)

  /** A function given to bind_raw; Void stands for a void result. */
  datatype RawFunction = RawFunction(run: Bytes -> Result<Returned<Bytes>>)

  /** The calls made so far, the string `result`, and whether an exception is propagating. */
  datatype Effect<+V> = Effect(calls: seq<seq<V>>, result: Bytes, raised: bool)

  /** A catch clause that only logs. */
  function Catch<V>(e: Effect<V>): Effect<V> { e.(raised := false) }

  function ResultArgs<V>(r: Returned<V>): seq<V> {
    match r
    case Void => []
    case Value(v) => [v]
  }

  /** router::call, 193-208: call, then assign the packed result. */
  function Call<Type, V, Parser>(c: Codec<Type, V, Parser>, f: Function<Type, V>, args: seq<V>): Effect<V> {
    match f.run(args)
    case Error(_) => Effect([args], [], true)
    case Ok(ret) =>
      match c.pack(ResultArgs(ret))
      case Error(_) => Effect([args], [], true)
      case Ok(bytes) => Effect([args], bytes, false)
  }

  /** router::invoker<Function, I, N>::apply, 271-336: one argument per level, a catch at every level. */
  function Apply<Type, V, Parser>(
    c: Codec<Type, V, Parser>, f: Function<Type, V>, i: nat, args: seq<V>, parser: Parser): Effect<V>
    requires |args| == i <= |f.params|
    decreases |f.params| - i
  {
    if i == |f.params| then Catch(Call(c, f, args))
    else
      match c.top(parser, f.params[i])
      case Error(_) => Catch(Effect([], [], true))
      case Ok((v, parser')) => Catch(Apply(c, f, i + 1, args + [v], parser'))
  }

  /** The values of the given types at the front of the parser, in order, or the first failure. */
  function UnpackAll<Type, V, Parser>(c: Codec<Type, V, Parser>, types: seq<Type>, parser: Parser): (r: Result<seq<V>>)
    ensures r.Ok? ==> |r.value| == |types|
  {
    if types == [] then Ok([])
    else
      match c.top(parser, types[0])
      case Error(m) => Error(m)
      case Ok((v, parser')) =>
        match UnpackAll(c, types[1..], parser')
        case Error(m) => Error(m)
        case Ok(vs) => Ok([v] + vs)
  }

  /** The packed return value, or nothing when the function or the packing throws. */
  function ResultOf<Type, V, Parser>(c: Codec<Type, V, Parser>, f: Function<Type, V>, args: seq<V>): Bytes {
    match f.run(args)
    case Error(_) => []
    case Ok(ret) => match c.pack(ResultArgs(ret)) case Error(_) => [] case Ok(bytes) => bytes
  }

  /**
   For every arity: the function is invoked exactly once if all arguments unpack, on the unpacked
   values in order, and not at all otherwise; nothing is thrown; the result stays empty on failure.
   */
  lemma {:induction false} ApplyMeaning<Type, V, Parser>(
    c: Codec<Type, V, Parser>, f: Function<Type, V>, i: nat, args: seq<V>, parser: Parser)
    requires |args| == i <= |f.params|
    ensures Apply(c, f, i, args, parser) ==
            match UnpackAll(c, f.params[i..], parser)
            case Error(_) => Effect([], [], false)
            case Ok(vs) => Effect([args + vs], ResultOf(c, f, args + vs), false)
    decreases |f.params| - i
  {
    if i == |f.params| {
      assert f.params[i..] == [] && args + [] == args;
    } else {
      var types := f.params[i..];
      assert types[0] == f.params[i] && types[1..] == f.params[i + 1..];
      match c.top(parser, f.params[i])
      case Error(_) =>
      case Ok((v, parser')) =>
        ApplyMeaning(c, f, i + 1, args + [v], parser');
        match UnpackAll(c, types[1..], parser')
        case Error(_) =>
        case Ok(vs) => assert (args + [v]) + vs == args + ([v] + vs);
    }
  }

  // ---- the task that a worker runs ----

  /** The calls a task makes and the frame it tries to write; Error stands for disconnect(). */
  datatype TaskEffect<+V> = TaskEffect(calls: seq<seq<V>>, reply: Result<Bytes>)

  /** invoker_function::operator(), 26-40. */
  function RunTask<Type, V, Parser>(c: Codec<Type, V, Parser>, f: Function<Type, V>, body: Bytes): TaskEffect<V> {
    match c.open(body)
    case Error(m) => TaskEffect([], Error(m))
    case Ok(parser) =>
      var e := Apply(c, f, 0, [], parser);
      if e.raised then TaskEffect(e.calls, Error("raised"))
      else TaskEffect(e.calls, EncodeResponse(e.result))
  }

  /** invoker_raw::apply and call_raw, 239-252 and 342-352: `result` is assigned only when nothing throws. */
  function RawResult(f: RawFunction, body: Bytes): Bytes {
    match f.run(body)
    case Ok(Value(bytes)) => bytes
    case _ => []
  }

  /** invoker_function_raw::operator(), 59-73; the one call is on the body itself. */
  function RunRawTask(f: RawFunction, body: Bytes): TaskEffect<Byte> {
    TaskEffect([body], EncodeResponse(RawResult(f, body)))
  }

  /** The same without levels, exceptions or catch clauses. */
  function SpecifiedTask<Type, V, Parser>(c: Codec<Type, V, Parser>, f: Function<Type, V>, body: Bytes): TaskEffect<V> {
    var unpacker := c.open(body);
    if unpacker.Error? then TaskEffect([], Error(unpacker.message))
    else
      var args := UnpackAll(c, f.params, unpacker.value);
      if args.Error? then TaskEffect([], EncodeResponse([]))
      else TaskEffect([args.value], EncodeResponse(ResultOf(c, f, args.value)))
  }

  /**
   A task calls its function once, on what the body unpacks to, or not at all; and it attempts a
   reply unless the body cannot be opened or the packed result exceeds the frame limit.
   */
  lemma TaskMeaning<Type, V, Parser>(c: Codec<Type, V, Parser>, f: Function<Type, V>, body: Bytes)
    ensures RunTask(c, f, body) == SpecifiedTask(c, f, body)
  {
    var unpacker := c.open(body);
    if unpacker.Ok? {
      ApplyMeaning(c, f, 0, [], unpacker.value);
      assert f.params[0..] == f.params;
      var args := UnpackAll(c, f.params, unpacker.value);
      if args.Ok? {
        assert [] + args.value == args.value;
      }
    }
  }
}

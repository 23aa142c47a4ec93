/** MethodEventSubscriber (bus/subscriber): a subscriber method bound to the
    object it is invoked on, its identity (equals/hashCode) and how `handle`
    translates the failures of the reflective call. The synchronised variant
    differs only by taking a monitor, so it is a tag here. */
module Subscribers {
  import opened JavaLang
  import opened Types
  import opened Events

  /** Which of the two subscriber classes makeSubscriber instantiated. */
  datatype Kind = Plain | Synchronised

  /** A MethodEventSubscriber: the receiver (None for null, as for static
      methods of a class listener) and the method it calls. */
  datatype Subscriber = Subscriber(target: Option<ObjRef>, callee: MethodDecl, kind: Kind)

  /** new MethodEventSubscriber(target, method): a null method is refused, and a
      null target is refused unless the method is static. */
  function NewSubscriber(target: Option<ObjRef>, m: Option<MethodDecl>, kind: Kind): (r: Result<Subscriber>)
    ensures r.Ok? <==> m.Some? && (m.value.isStatic || target.Some?)
    ensures r.Err? ==> r.error == NullPointer
    ensures r.Ok? ==> r.value.target == target && r.value.callee == m.value && r.value.kind == kind
  {
    if m.None? then Err(NullPointer)
    else if !m.value.isStatic && target.None? then Err(NullPointer)
    else Ok(Subscriber(target, m.value, kind))
  }

  /** java.lang.reflect.Method.equals: same declaring class, name, return
      type and parameter types. */
  predicate SameMethod(m1: MethodDecl, m2: MethodDecl) {
    m1.declaring == m2.declaring && m1.name == m2.name &&
    m1.returnType == m2.returnType && m1.params == m2.params
  }

  /** MethodEventSubscriber.equals: the same target reference and equal
      methods; which of the two subscriber classes it is does not matter. */
  predicate Equals(a: Subscriber, b: Subscriber) {
    a.target == b.target && SameMethod(a.callee, b.callee)
  }

  function Unsigned32(x: Int32): (u: nat)
    ensures u < TWO_32 && (u - x) % TWO_32 == 0
  {
    if x < 0 then x + TWO_32 else x
  }

  /** `a ^ b` on Java ints. */
  function Xor32(a: Int32, b: Int32): Int32 {
    Wrap32(((Unsigned32(a) as bv32) ^ (Unsigned32(b) as bv32)) as int)
  }

  /** Method.hashCode: the hash of the declaring class's name xor the hash of
      the method's name. Class names are given by `className`. */
  function MethodHash(m: MethodDecl, className: ClassId -> string): Int32 {
    Xor32(StringHash(className(m.declaring)), StringHash(m.name))
  }

  /** System.identityHashCode: 0 for null, otherwise the object's identity
      hash as `identity` gives it. */
  function IdentityHash(target: Option<ObjRef>, identity: ObjRef -> Int32): Int32 {
    if target.None? then 0 else identity(target.value)
  }

  /** MethodEventSubscriber.hashCode: (31 + method hash) * 31 + identity hash
      of the target, in int arithmetic. */
  function Hash(s: Subscriber, className: ClassId -> string, identity: ObjRef -> Int32): (h: Int32)
    ensures (h - ((31 + MethodHash(s.callee, className)) * 31 + IdentityHash(s.target, identity))) % TWO_32 == 0
  {
    Wrap32((31 + MethodHash(s.callee, className)) * 31 + IdentityHash(s.target, identity))
  }

  /** Equal subscribers have equal hash codes, whatever the class names and
      identity hashes are. */
  lemma HashAgreesWithEquals(a: Subscriber, b: Subscriber, className: ClassId -> string, identity: ObjRef -> Int32)
    requires Equals(a, b)
    ensures Hash(a, className, identity) == Hash(b, className, identity)
  {
  }

  /** Equals is an equivalence relation. */
  lemma EqualsIsEquivalence(a: Subscriber, b: Subscriber, c: Subscriber)
    ensures Equals(a, a)
    ensures Equals(a, b) ==> Equals(b, a)
    ensures Equals(a, b) && Equals(b, c) ==> Equals(a, c)
  {
  }

  /** Why a reflective Method.invoke can end. */
  datatype Invocation =
    | Returned                 // the subscriber method returned normally
    | RejectedArgument         // IllegalArgumentException from invoke
    | Inaccessible             // IllegalAccessException from invoke
    | Threw(cause: Throwable)  // the method threw: InvocationTargetException

  /** What `handle` can throw. */
  datatype Throwable =
    | Raised(ex: Exception)            // one of the runtime exceptions of the core
    | AnError(name: string)            // a java.lang.Error thrown by the method body
    | AnException(name: string)        // any other Throwable thrown by the method body
    | ReflectionError(rejected: bool)  // new Error("Method rejected..." / "Method became inaccessible...")
    | InvocationTarget(cause: Throwable)

  predicate IsError(t: Throwable) {
    t.AnError? || t.ReflectionError?
  }

  /** MethodEventSubscriber.handle: the result is None when the call returns,
      otherwise what `handle` throws. */
  function Handle(event: Option<Event>, call: Invocation): (thrown: Option<Throwable>)
    ensures event.None? ==> thrown == Some(Raised(NullPointer))
    ensures event.Some? ==> (thrown.None? <==> call.Returned?)
    ensures event.Some? && (call.RejectedArgument? || call.Inaccessible?) ==>
      thrown == Some(ReflectionError(call.RejectedArgument?))
    ensures event.Some? && call.Threw? && IsError(call.cause) ==> thrown == Some(call.cause)
    ensures event.Some? && call.Threw? && !IsError(call.cause) ==> thrown == Some(InvocationTarget(call.cause))
  {
    if event.None? then Some(Raised(NullPointer))
    else match call
      case Returned => None
      case RejectedArgument => Some(ReflectionError(true))
      case Inaccessible => Some(ReflectionError(false))
      case Threw(cause) => if IsError(cause) then Some(cause) else Some(InvocationTarget(cause))
  }

  /** What escapes `handle` for a non-null event is always an Error or an
      InvocationTargetException around something that is not an Error: a
      reflective failure is never let through as it is. */
  lemma HandleThrowsErrorsOrWrapped(event: Event, call: Invocation)
    ensures var thrown := Handle(Some(event), call);
      thrown.Some? ==> IsError(thrown.value) || (thrown.value.InvocationTarget? && !IsError(thrown.value.cause))
  {
  }
}

# Ion: a verified model of the event bus and the cluster-address derivation

Ion joins processes into a cluster over a multicast group. Each process
carries an in-process event bus. This project models in Dafny the
deterministic, single-threaded core of both, and proves what the code
promises about it.

- **Address derivation** (`strings.dfy`, `cluster_builder.dfy`).
  - The static initialisers check that both bounds are multicast, then build
    the per-byte range and reject a range with no positive byte.
  - `normalise` maps the name's `String.hashCode` onto an address byte by
    byte, against the range and the lower bound.
  - Both are modelled as the code writes them: the copied hash byte, the
    signed divisor, and the builder's strict `>`.
  - The builder's private `hash` is the same expression as that of `Strings`,
    so both use `Strings.Hash`.
- **Type flattening** (`types.dfy`). `Types.classes` runs over an abstract
  class table, which stands in for reflection.
- **Subscriber discovery** (`strategy.dfy`, `subscriber.dfy`).
  - Covers collecting the annotated methods of a hierarchy, binding them to a
    listener and grouping them by event type.
  - Also covers subscriber identity and how `handle` translates failures.
- **Subscriber registry** (`registry.dfy`). A class whose map from event type
  to an insertion-ordered set is updated in place by `register` and
  `unregister`.
- **Concatenated iterator** (`concat_iterator.dfy`). A class over iterator
  values that unpacks nested concatenations into its deque.
- **Dispatcher** (`dispatcher.dfy`).
  - A class holding one thread's queue and `dispatching` flag.
  - Its drain is proved against a functional specification, `Run`.
- **Bus** (`event_bus.dfy`, `events.dfy`, `exception_context.dfy`).
  - `post` uses the dead-event rule; `handleException` swallows what the
    handler throws.
  - The constructors check for nulls, and `toString` is modelled.
- **Pair** (`pair.dfy`). Null-safe equality and the lazily cached hash code.
- **Shared pieces** (`java_lang.dfy`, `ordered_sets.dfy`).
  - Java's arithmetic: int wrap-around, signed bytes, the truncating `%` and
    `String.hashCode`.
  - The insertion-ordered sets: `LinkedHashSet.add` and the `addAll` and
    `removeAll` of `CopyOnWriteArraySet`.

Java `null` is `Option.None`. A thrown exception is the `Err` case of
`Result`. Reflection is replaced by a class table in which a superclass has a
smaller number than its subclasses, so the superclass walk terminates.

Two details of the hash and the derivation are modelled exactly as the code
does them:

- The hash code goes into bytes 0..3 of the hash buffer, because
  `ByteBuffer.putInt` writes at position 0 (Strings.java:92-96). For an IPv4
  range the first byte of the hash therefore meets the first address byte.
- A hash byte below its non-zero range byte is copied unchanged, without the
  lower-bound byte (Strings.java:81-82). The program evidently means every
  derived address to be a multicast group: the static initialiser accepts
  only multicast bounds (Strings.java:27-33), and the derived address is
  joined as a group (Ion.java:51-52 and 84, IonClusterBuilder.java:109-110).
  The copied byte breaks that; see "## Findings".

## Model

| member | source | states |
|---|---|---|
| JavaLang.Signed | src/main/java/me/jezza/ion/utils/Strings.java:79-80 | the value a byte has in Java arithmetic lies in -128..127 and is congruent to the unsigned byte modulo 256 |
| JavaLang.ToByte | src/main/java/me/jezza/ion/utils/Strings.java:80 | the `(byte)` cast keeps the value modulo 256 |
| JavaLang.JavaRem | src/main/java/me/jezza/ion/utils/Strings.java:80 | Java's `%` has a magnitude below that of the divisor, differs from the dividend by a multiple of it, and takes the dividend's sign |
| JavaLang.StringHashIsPolynomial | src/main/java/me/jezza/ion/utils/Strings.java:94 | the Horner loop of `String.hashCode` equals the documented sum of s[i]*31^(n-1-i), reduced to 32 bits |
| JavaLang.IntBytesRoundTrip | src/main/java/me/jezza/ion/utils/Strings.java:92-96 | the four big-endian bytes `putInt` writes read back as the same int |
| OrderedSets.Add | src/main/java/me/jezza/ion/utils/Types.java:20 | `LinkedHashSet.add` keeps the old order, contains exactly the old elements plus the new one, and stays duplicate-free |
| OrderedSets.AddAll | src/main/java/me/jezza/ion/bus/DefaultSubscriberRegistry.java:59 | `addAll` extends the set, which then holds exactly the old elements and the added ones, still duplicate-free |
| OrderedSets.Dedup | src/main/java/me/jezza/ion/utils/Types.java:17-26 | adding a sequence to an empty ordered set gives a duplicate-free set of exactly its elements |
| OrderedSets.AddAllAppend | src/main/java/me/jezza/ion/bus/DefaultSubscriberRegistry.java:59 | adding two batches in turn equals adding their concatenation |
| OrderedSets.DedupKeepsFirstOccurrenceOrder | src/main/java/me/jezza/ion/utils/Types.java:17-29 | the ordered set lists its elements in the order of their first addition |
| OrderedSets.RemoveAll | src/main/java/me/jezza/ion/bus/DefaultSubscriberRegistry.java:68 | `removeAll` keeps, in order, exactly the elements not removed, and is unchanged only when it is the same set |
| OrderedSets.RemoveAllChangesIff | src/main/java/me/jezza/ion/bus/DefaultSubscriberRegistry.java:68 | `removeAll` changes the set exactly when one of its elements is among those removed, in both directions |
| OrderedSets.RemoveAllUndoesAddAll | src/main/java/me/jezza/ion/bus/DefaultSubscriberRegistry.java:54-77 | removing what `addAll` added restores the set when none of the added elements was in it before |
| Types.SuperChain | src/main/java/me/jezza/ion/utils/Types.java:18-29 | the superclass chain starts at the class itself and stays in the class table |
| Types.Classes | src/main/java/me/jezza/ion/utils/Types.java:15-32 | a null start is an NPE; otherwise the loop up the superclass chain returns the flattened set `Flatten` |
| Types.AddInterfaces | src/main/java/me/jezza/ion/utils/Types.java:21-28 | the interface loop adds each direct interface in order to the insertion-ordered set |
| Types.RawMembers | src/main/java/me/jezza/ion/utils/Types.java:18-30 | the walk visits a type exactly when it is in the superclass chain or directly implemented by a class of it |
| Types.FlattenMembers | src/main/java/me/jezza/ion/utils/Types.java:18-31 | `classes` contains exactly the start class, its transitive superclasses and the interfaces they declare directly (not interfaces of interfaces) |
| Types.FlattenInTable | src/main/java/me/jezza/ion/utils/Types.java:18-31 | every type returned is known to the class table |
| Types.FlattenStartsWithStart | src/main/java/me/jezza/ion/utils/Types.java:17-20 | the result has no duplicates and starts with the start class |
| Types.FlattenOrder | src/main/java/me/jezza/ion/utils/Types.java:17-29 | the order is class, its interfaces, superclass, its interfaces, ..., and a repeated type keeps its first position |
| Types.ChainIsStrictlyDescending | src/main/java/me/jezza/ion/utils/Types.java:19-29 | every proper ancestor in the chain is a different, earlier class, so the walk ends |
| Strings.RangeOf | src/main/java/me/jezza/ion/utils/Strings.java:40-48 | range byte i is upper[i] - lower[i] as unsigned bytes when upper[i] is the larger, else 0, for each upper byte |
| Strings.Configure | src/main/java/me/jezza/ion/utils/Strings.java:23-55 | initialisation succeeds exactly for multicast bounds whose range has a positive byte; a non-multicast bound or an all-zero range is an IllegalArgumentException, and a lower bound shorter than the upper one makes the range loop throw IndexOutOfBoundsException; the state holds the bounds and their range |
| Strings.ComputeRange | src/main/java/me/jezza/ion/utils/Strings.java:37-48 | the range loop fills a fresh array with `RangeOf`, or reads past a shorter lower bound |
| Strings.AssertArray | src/main/java/me/jezza/ion/utils/Strings.java:57-62 | `assertArray` is true exactly when every byte is zero |
| Strings.StaticInit | src/main/java/me/jezza/ion/utils/Strings.java:23-55 | the static initialiser produces exactly `Configure`'s outcome |
| Strings.HashBytes | src/main/java/me/jezza/ion/utils/Strings.java:92-96 | the hash buffer has the requested length |
| Strings.HashBytesHoldHash | src/main/java/me/jezza/ion/utils/Strings.java:92-96 | bytes 0..3 of the buffer read back as the hash code, and the rest are zero |
| Strings.Hash | src/main/java/me/jezza/ion/utils/Strings.java:92-96 | `hash` of a null name throws NullPointerException; otherwise it returns a fresh buffer holding `HashBytes` of the name's `String.hashCode` |
| Strings.Normalised | src/main/java/me/jezza/ion/utils/Strings.java:68-84 | the derived address has one byte per range byte |
| Strings.Normalise | src/main/java/me/jezza/ion/utils/Strings.java:68-90 | each output byte is the lower byte where the range byte is 0, `(byte)(unsigned hash byte % signed r + lower)` where the hash byte is >= r, and the hash byte otherwise; the result is a function of the name and the bounds alone; a null name throws NullPointerException |
| Strings.NormaliseBytes | src/main/java/me/jezza/ion/utils/Strings.java:71-84 | after hashing, which throws NullPointerException for a null name, the downward loop fills every position with its `NormalisedByte` |
| Strings.DivisorIsSignedRange | src/main/java/me/jezza/ion/utils/Strings.java:79-80 | a range byte up to 127 reduces modulo r, and one above 127 reduces modulo 256 - r |
| Strings.SmallHashByteIsCopied | src/main/java/me/jezza/ion/utils/Strings.java:81-82 | a hash byte below a non-zero range byte is copied without adding the lower bound |
| Strings.DefaultBounds | src/main/java/me/jezza/ion/utils/Strings.java:16-17 | the default bounds 224.0.0.1 and 239.255.255.255 pass the static initialiser |
| Strings.DefaultBoundsDeriveNonMulticast | src/main/java/me/jezza/ion/utils/Strings.java:79-82 | with the default bounds the name "a" derives 0.0.0.97, which is not multicast |
| Strings.CorrectedStaysWithinBounds | src/main/java/me/jezza/ion/utils/Strings.java:79-82 | for bounds of one address family, every corrected byte is at least its lower byte, stays below its upper byte where the upper byte is larger, equals the lower byte elsewhere, and the address is multicast |
| IonClusterBuilder.ComputeRange | src/main/java/me/jezza/ion/cluster/IonClusterBuilder.java:39-48 | the builder's loop, which subtracts signed bytes and casts, fills the same range as the unsigned subtraction |
| IonClusterBuilder.SignedDifference | src/main/java/me/jezza/ion/cluster/IonClusterBuilder.java:47 | `(byte)(up - low)` on signed bytes is the unsigned difference whenever the unsigned upper byte is larger |
| IonClusterBuilder.StaticInit | src/main/java/me/jezza/ion/cluster/IonClusterBuilder.java:25-55 | the builder's initialiser accepts and rejects exactly as `Strings.Configure` does and leaves the same state |
| IonClusterBuilder.BuilderNormalised | src/main/java/me/jezza/ion/cluster/IonClusterBuilder.java:73-89 | the builder's address has one byte per range byte |
| IonClusterBuilder.Normalise | src/main/java/me/jezza/ion/cluster/IonClusterBuilder.java:73-95 | each output byte follows the builder's rule: lower byte for a zero range byte, the modular formula only for a hash byte strictly above r, and the hash byte otherwise; a null name throws NullPointerException |
| IonClusterBuilder.NormaliseBytes | src/main/java/me/jezza/ion/cluster/IonClusterBuilder.java:76-89 | after hashing, which throws NullPointerException for a null name (IonClusterBuilder.java:97-99), the downward loop fills every position with its `BuilderByte` |
| IonClusterBuilder.AgreesWithStringsExceptAtEquality | src/main/java/me/jezza/ion/cluster/IonClusterBuilder.java:84 | the two derivations differ only at a byte where the hash byte equals a non-zero range byte |
| IonClusterBuilder.EqualityCaseDiffers | src/main/java/me/jezza/ion/cluster/IonClusterBuilder.java:84-87 | at range byte 15, hash byte 15 and lower byte 224 the builder gives 15 and `Strings` gives 224 |
| IonClusterBuilder.Builder.constructor | src/main/java/me/jezza/ion/cluster/IonClusterBuilder.java:67-71 | the builder computes its address once, from the name and the static bounds alone |
| IonClusterBuilder.Builder.New | src/main/java/me/jezza/ion/cluster/IonClusterBuilder.java:67-71 | a null name throws NullPointerException and no builder is made; otherwise a fresh builder holding the name and its derived address |
| Events.NewDeadEvent | src/main/java/me/jezza/ion/bus/DeadEvent.java:13-16 | a null source or event is an NPE; otherwise the DeadEvent holds exactly the arguments |
| Events.BusString | src/main/java/me/jezza/ion/bus/EventBus.java:253-256 | `toString` is "[EventBus-", then the identifier, then "]" |
| Events.DeadString | src/main/java/me/jezza/ion/bus/DeadEvent.java:18-21 | `toString` is "Dead{" and the bus's string, then ':', the event's string and '}' |
| Events.BusStringInjective | src/main/java/me/jezza/ion/bus/EventBus.java:254-256 | distinct identifiers print differently |
| Events.DeadStringDeterminesEvent | src/main/java/me/jezza/ion/bus/DeadEvent.java:19-21 | for one bus, the printed DeadEvent determines the printed inner event |
| ExceptionContexts.NewExceptionContext | src/main/java/me/jezza/ion/bus/ExceptionContext.java:33-37 | a null bus, event or subscriber is an NPE; otherwise the fields hold exactly the arguments |
| Subscribers.NewSubscriber | src/main/java/me/jezza/ion/bus/subscriber/MethodEventSubscriber.java:24-29 | a null method, or a null target for a non-static method, is an NPE; otherwise the subscriber holds exactly its arguments |
| Subscribers.Hash | src/main/java/me/jezza/ion/bus/subscriber/MethodEventSubscriber.java:53-56 | `hashCode` is (31 + method hash) * 31 + identity hash of the target, modulo 2^32 |
| Subscribers.HashAgreesWithEquals | src/main/java/me/jezza/ion/bus/subscriber/MethodEventSubscriber.java:53-68 | equal subscribers hash alike |
| Subscribers.EqualsIsEquivalence | src/main/java/me/jezza/ion/bus/subscriber/MethodEventSubscriber.java:59-68 | `equals` (same target reference, equal method) is reflexive, symmetric and transitive |
| Subscribers.Handle | src/main/java/me/jezza/ion/bus/subscriber/MethodEventSubscriber.java:31-46 | a null event is an NPE; nothing is thrown exactly when the call returns; rejected and inaccessible calls become an Error; a thrown Error is rethrown; anything else thrown stays wrapped |
| Subscribers.HandleThrowsErrorsOrWrapped | src/main/java/me/jezza/ion/bus/subscriber/MethodEventSubscriber.java:36-45 | what escapes `handle` is an Error, or an InvocationTargetException around something that is not an Error |
| Strategy.ClassOf | src/main/java/me/jezza/ion/bus/AnnotatedSubscriberStrategy.java:93-96 | a Class listener stands for itself and an instance for its class; null is an NPE |
| Strategy.MakeSubscriber | src/main/java/me/jezza/ion/bus/AnnotatedSubscriberStrategy.java:75-91 | a subscriber exists exactly when static-ness matches the listener kind; a Class listener gives a null target and an instance itself as target; the plain kind exactly for thread-safe methods |
| Strategy.MakeSubscriberConstructs | src/main/java/me/jezza/ion/bus/AnnotatedSubscriberStrategy.java:81-86 | the subscriber constructor `makeSubscriber` calls never throws |
| Strategy.IdentifierEqualsIsEquality | src/main/java/me/jezza/ion/bus/AnnotatedSubscriberStrategy.java:144-151 | `MethodIdentifier.equals` holds exactly when name and parameter types are equal |
| Strategy.IdentifierHashWrapsOnce | src/main/java/me/jezza/ion/bus/AnnotatedSubscriberStrategy.java:135-142 | overflowing at each step of the hash equals overflowing once at the end |
| Strategy.HashCode | src/main/java/me/jezza/ion/bus/AnnotatedSubscriberStrategy.java:135-142 | the accumulator loop computes 31 + name hash, then `31 * result + parameter hash` per parameter, modulo 2^32 |
| Strategy.EqualIdentifiersHashEqual | src/main/java/me/jezza/ion/bus/AnnotatedSubscriberStrategy.java:135-151 | equal identifiers have equal hash codes |
| Strategy.Collect | src/main/java/me/jezza/ion/bus/AnnotatedSubscriberStrategy.java:102-122 | collection fails with IllegalArgumentException exactly when an annotated non-bridge method's arity is not 1; what it keeps are annotated non-bridge one-argument methods among those visited |
| Strategy.CollectKeepsOnePerIdentifier | src/main/java/me/jezza/ion/bus/AnnotatedSubscriberStrategy.java:116-119 | at most one method per identifier is kept |
| Strategy.CollectCoversEveryIdentifier | src/main/java/me/jezza/ion/bus/AnnotatedSubscriberStrategy.java:116-119 | every eligible method's identifier is represented |
| Strategy.CollectKeepsFirst | src/main/java/me/jezza/ion/bus/AnnotatedSubscriberStrategy.java:116-119 | the kept method for an identifier is the first eligible one in `Types.classes` order: the class's own methods, then those of its direct interfaces, then those of its superclass, and so on |
| Strategy.CollectErrorSticks | src/main/java/me/jezza/ion/bus/AnnotatedSubscriberStrategy.java:108-114 | once the collection has thrown, later methods do not change the outcome |
| Strategy.CollectAnnotatedMethods | src/main/java/me/jezza/ion/bus/AnnotatedSubscriberStrategy.java:98-124 | the nested loops over `Types.classes` and declared methods compute `Collect` of the hierarchy's methods |
| Strategy.CollectDeclared | src/main/java/me/jezza/ion/bus/AnnotatedSubscriberStrategy.java:104-121 | the inner loop over one type's methods extends `Collect` by them |
| Strategy.Group | src/main/java/me/jezza/ion/bus/AnnotatedSubscriberStrategy.java:64-72 | every group created is non-empty |
| Strategy.GroupEntries | src/main/java/me/jezza/ion/bus/AnnotatedSubscriberStrategy.java:65-72 | every grouped subscriber is filed under its method's single parameter type and is what `makeSubscriber` builds for one of the methods |
| Strategy.GroupCovers | src/main/java/me/jezza/ion/bus/AnnotatedSubscriberStrategy.java:65-72 | every method `makeSubscriber` accepts has its subscriber in the group of its parameter type |
| Strategy.GroupMethods | src/main/java/me/jezza/ion/bus/AnnotatedSubscriberStrategy.java:64-72 | the grouping loop computes `Group` |
| Strategy.FindAllSubscribers | src/main/java/me/jezza/ion/bus/AnnotatedSubscriberStrategy.java:61-73 | `findAllSubscribers` computes `FoundSubscribers` |
| Strategy.FoundSubscribers | src/main/java/me/jezza/ion/bus/AnnotatedSubscriberStrategy.java:61-73 | the failures are an NPE for a null listener and IllegalArgumentException for a malformed subscriber method |
| Strategy.FoundSubscribersMatchListener | src/main/java/me/jezza/ion/bus/AnnotatedSubscriberStrategy.java:61-87 | each subscriber found is filed under its single parameter type, comes from an annotated non-bridge method of the hierarchy, and matches the listener: static with null target for a Class, instance-bound otherwise |
| Registry.Registered | src/main/java/me/jezza/ion/bus/DefaultSubscriberRegistry.java:54-61 | after `register` the table has the old types plus the discovered ones |
| Registry.RegisteredBuckets | src/main/java/me/jezza/ion/bus/DefaultSubscriberRegistry.java:57-60 | each set keeps its old members first and in order, gains exactly the new ones, and stays duplicate-free |
| Registry.Unregistered | src/main/java/me/jezza/ion/bus/DefaultSubscriberRegistry.java:63-77 | unregistering never removes a type from the table |
| Registry.SubscriberRegistry.constructor | src/main/java/me/jezza/ion/bus/DefaultSubscriberRegistry.java:49-52 | a new registry has no sets |
| Registry.SubscriberRegistry.Register | src/main/java/me/jezza/ion/bus/DefaultSubscriberRegistry.java:54-61 | a discovery failure propagates and changes nothing; otherwise the table becomes `Registered` of the old one, with sets duplicate-free |
| Registry.SubscriberRegistry.AddGroups | src/main/java/me/jezza/ion/bus/DefaultSubscriberRegistry.java:57-60 | the loop over the groups, in any order, yields `Registered` |
| Registry.SubscriberRegistry.Unregister | src/main/java/me/jezza/ion/bus/DefaultSubscriberRegistry.java:63-77 | succeeds exactly when every discovered type has a set that `removeAll` changes, giving the entries removed; otherwise IllegalArgumentException with the removals already done kept; types never leave the table |
| Registry.SubscriberRegistry.RemoveGroups | src/main/java/me/jezza/ion/bus/DefaultSubscriberRegistry.java:66-76 | the loop stops at the first missing or unchanged set, and the earlier removals stay |
| Registry.SubscriberRegistry.SubscribersFor | src/main/java/me/jezza/ion/bus/DefaultSubscriberRegistry.java:79-94 | a null event is an NPE; otherwise the snapshots of the sets of the event class's flattened hierarchy, in that order |
| Registry.SetsOf | src/main/java/me/jezza/ion/bus/DefaultSubscriberRegistry.java:84-90 | at most one snapshot per type |
| Registry.SetsOfMembers | src/main/java/me/jezza/ion/bus/DefaultSubscriberRegistry.java:82-93 | a subscriber is offered an event exactly when it is registered for some type of the hierarchy |
| Registry.OwnSetComesFirst | src/main/java/me/jezza/ion/bus/DefaultSubscriberRegistry.java:82-90 | the event class's own set, if any, comes first |
| Registry.UnregisterRemovesEveryEntry | src/main/java/me/jezza/ion/bus/DefaultSubscriberRegistry.java:64-77 | after a successful `unregister` none of the listener's entries remain, and emptied sets stay |
| Registry.RegisterThenUnregister | src/main/java/me/jezza/ion/bus/DefaultSubscriberRegistry.java:54-77 | unregistering right after registering succeeds and restores every set, leaving sets that register created empty |
| ConcatIterator.ConcatenatedIterator.constructor | src/main/java/me/jezza/ion/utils/ConcatenatedIterator.java:47-50 | the iterator starts on the empty iterator and will yield the meta-iterator's elements |
| ConcatIterator.ConcatenatedIterator.Concat | src/main/java/me/jezza/ion/utils/ConcatenatedIterator.java:47-54 | a null meta-iterator is an NPE; otherwise the elements to come are the inputs' elements, in order |
| ConcatIterator.ConcatenatedIterator.GetTopMetaIterator | src/main/java/me/jezza/ion/utils/ConcatenatedIterator.java:56-66 | returns a non-empty meta-iterator, or null exactly when all are empty; no element is consumed |
| ConcatIterator.ConcatenatedIterator.HasNext | src/main/java/me/jezza/ion/utils/ConcatenatedIterator.java:68-104 | true exactly when an element is still to come, with the elements to come unchanged |
| ConcatIterator.ConcatenatedIterator.Next | src/main/java/me/jezza/ion/utils/ConcatenatedIterator.java:106-114 | returns the first element to come and drops it, and remembers its iterator for `remove`; NoSuchElementException when none is left |
| ConcatIterator.ConcatenatedIterator.Remove | src/main/java/me/jezza/ion/utils/ConcatenatedIterator.java:116-122 | IllegalStateException without a `next` since the last `remove`; otherwise the removal goes to the last element's iterator, once |
| ConcatIterator.ExhaustedIsEmpty | src/main/java/me/jezza/ion/utils/ConcatenatedIterator.java:74-76 | when no meta-iterator has anything left, only the current iterator's elements remain |
| ConcatIterator.UnpackKeepsOrder | src/main/java/me/jezza/ion/utils/ConcatenatedIterator.java:79-101 | unpacking a nested concatenation into the deque keeps the elements and their order, and shrinks the work left |
| ConcatIterator.SkipEmpty | src/main/java/me/jezza/ion/utils/ConcatenatedIterator.java:58-60 | moving past an empty meta-iterator changes neither the elements to come nor the work left |
| ConcatIterator.FlatOfPlains | src/main/java/me/jezza/ion/utils/ConcatenatedIterator.java:68-114 | over ordinary iterators the yielded sequence is their concatenation |
| ConcatIterator.FreshNestedFlattens | src/main/java/me/jezza/ion/utils/ConcatenatedIterator.java:81-101 | a nested concatenation yields what its own inputs would |
| EventDispatch.Routed | src/main/java/me/jezza/ion/bus/DefaultEventDispatcher.java:28-29 | the nested posts add at most one entry each |
| EventDispatch.DefaultEventDispatcher.constructor | src/main/java/me/jezza/ion/bus/DefaultEventDispatcher.java:15-22 | the queue starts empty and the flag false |
| EventDispatch.DefaultEventDispatcher.Dispatch | src/main/java/me/jezza/ion/bus/DefaultEventDispatcher.java:24-50 | `dispatch` appends the entry; while dispatching it returns at once without invoking anyone; otherwise it drains as `Run` specifies and resets the flag and the queue |
| EventDispatch.DefaultEventDispatcher.Drain | src/main/java/me/jezza/ion/bus/DefaultEventDispatcher.java:34-44 | the poll loop takes exactly the actions of `Run` on the queue it starts with |
| EventDispatch.DefaultEventDispatcher.Deliver | src/main/java/me/jezza/ion/bus/DefaultEventDispatcher.java:36-43 | the loop over one entry's subscribers takes `Run`'s first actions and leaves the queue `Run` continues with |
| EventDispatch.DefaultEventDispatcher.PostNested | src/main/java/me/jezza/ion/bus/DefaultEventDispatcher.java:28-30 | a subscriber's posts during the drain only append their entries, in order |
| EventDispatch.DrainStep | src/main/java/me/jezza/ion/bus/DefaultEventDispatcher.java:36-42 | one invocation takes its actions, and the subscriber's posts join the tail of the queue |
| EventDispatch.RunInvokesInQueueOrder | src/main/java/me/jezza/ion/bus/DefaultEventDispatcher.java:32-44 | a completed drain invokes every subscriber of every queued entry in FIFO order, before anything posted meanwhile, whatever the invocations throw: a failing subscriber does not stop the ones after it |
| EventDispatch.QuietRunInvokesExactly | src/main/java/me/jezza/ion/bus/DefaultEventDispatcher.java:35-44 | when subscribers post nothing, each subscriber is invoked exactly once, in order |
| EventDispatch.RunReportsEveryFailure | src/main/java/me/jezza/ion/bus/DefaultEventDispatcher.java:38-42 | every failure is reported right after its invocation with the outer `event` argument, and nothing else is reported |
| Bus.NeverDoubleWraps | src/main/java/me/jezza/ion/bus/EventBus.java:224-231 | what is dispatched is the event itself or one DeadEvent around a non-dead event that reached nobody |
| Bus.DeliveredToRegistered | src/main/java/me/jezza/ion/bus/EventBus.java:224-227 | the dispatched subscribers are exactly those registered for the hierarchy of the dispatched event, and there is one |
| Bus.RootSubscriberPreventsDeadEvents | src/main/java/me/jezza/ion/bus/EventBus.java:103-106 | with a subscriber for a supertype of every class, every event is dispatched as itself |
| Bus.CursorsConcatenate | src/main/java/me/jezza/ion/bus/DefaultSubscriberRegistry.java:91-93 | the concatenated iterator over the snapshots yields them one after the other |
| Bus.EventBus.constructor | src/main/java/me/jezza/ion/bus/EventBus.java:185-191 | the fields hold exactly the arguments |
| Bus.EventBus.New | src/main/java/me/jezza/ion/bus/EventBus.java:185-191 | a null identifier, handler, dispatcher, strategy or registry is an NPE; otherwise a bus of exactly those parts |
| Bus.EventBus.Register | src/main/java/me/jezza/ion/bus/EventBus.java:199-201 | forwards to the registry with the bus's strategy |
| Bus.EventBus.Unregister | src/main/java/me/jezza/ion/bus/EventBus.java:209-211 | forwards to the registry with the bus's strategy |
| Bus.EventBus.IteratorHasNext | src/main/java/me/jezza/ion/bus/EventBus.java:225-226 | the iterator from `subscribersFor` has a first element exactly when some snapshot is non-empty |
| Bus.EventBus.Post | src/main/java/me/jezza/ion/bus/EventBus.java:224-231 | null is an NPE; with subscribers the event is dispatched once; without, a non-dead event is re-posted once as a DeadEvent; a dead event with no subscribers is dropped |
| Bus.EventBus.HandleException | src/main/java/me/jezza/ion/bus/EventBus.java:241-251 | a null argument is an NPE; otherwise the handler is called with a context of this bus, the event and the subscriber, and what it throws is caught |
| Pairs.ComponentHash | src/main/java/me/jezza/ion/utils/Pair.java:67-68 | a null component contributes 0, any other its hashCode |
| Pairs.PairHashIsPolynomial | src/main/java/me/jezza/ion/utils/Pair.java:66-68 | the hash is (17 * 37 + h1) * 37 + h2 modulo 2^32 |
| Pairs.Pair.constructor | src/main/java/me/jezza/ion/utils/Pair.java:23-26 | the components are as given and nothing is cached |
| Pairs.PairClass.Of | src/main/java/me/jezza/ion/utils/Pair.java:74-76 | `of(a, b)` is a new pair whose `first()` is a and `second()` is b, with nothing cached, hashing its components by the same hashCode methods as every other pair |
| Pairs.Pair.Equals | src/main/java/me/jezza/ion/utils/Pair.java:41-61 | reflexive, false for null and non-pairs, and for pairs true exactly when both components are null-safely equal |
| Pairs.Pair.HashCode | src/main/java/me/jezza/ion/utils/Pair.java:64-72 | the same hash on every call; the cache is filled only when empty |
| Pairs.PairEqualsIsEquivalence | src/main/java/me/jezza/ion/utils/Pair.java:41-61 | pair equality is reflexive, symmetric and transitive |
| Pairs.EqualPairsHashAlike | src/main/java/me/jezza/ion/utils/Pair.java:41-72 | `hashCode` is consistent with `equals`: equal pairs whose components hash by the same methods have the same hash |
| Pairs.PairClass.constructor | src/main/java/me/jezza/ion/utils/Pair.java:16 | EMPTY is a fresh pair of two nulls, with nothing cached and the class's component hashCode methods |
| Pairs.PairClass.Empty | src/main/java/me/jezza/ion/utils/Pair.java:78-80 | `empty()` is always the shared pair of two nulls |

## Left out

- Networking is not modelled: Ion.java (Netty pipeline, serialisation codec), IonCluster.java, `IonClusterBuilder.join`, Addresses.java, CompactObjectOutputStream.java.
- Bypass.java is not modelled; it works through `sun.misc.Unsafe`.
- Logging is not modelled: the logger in `EventBus.handleException`, DefaultExceptionHandler.java and the builder's `System.out.println`.
- `InetAddress.getByName`, `getByAddress` and the system-property lookup are left out. The bounds are given as raw address bytes, and `normalise` returns the address bytes.
- The builder's `toString`, and `toString` of `Pair` and `MethodEventSubscriber`, are not modelled; they only print.
- Threads are not modelled. The dispatcher's `ThreadLocal` queue and flag are those of one thread. The concurrency of `ConcurrentHashMap` and `CopyOnWriteArraySet`, and the monitor of SynchronisedMethodEventSubscriber, are left out; that subscriber is the `Synchronised` tag.
- Reflection is replaced by the class table. The method cache of the strategy and the hierarchy cache of the registry are the functions they memoise.
- The strategy's annotation classes are replaced by the `subscribe` and `threadSafe` flags of a method, and the strategy object by one tag value.
- Strategy.Collect: the values of the `HashMap` of identifiers are returned in discovery order. In the code that order is unspecified.
- Registry.SubscriberRegistry.Register and Unregister: they visit the discovered types in an arbitrary order, as a `HashMap` does. The ensures of `Register` does not depend on that order. `Unregister`'s failure case only says that some subset of the removals was done.
- Bus.EventBus.Unregister: the failure case says only that it is an IllegalArgumentException. Which removals were done is stated on `Registry.SubscriberRegistry.Unregister`.
- Iterator objects are values, and aliasing is not captured. In particular the code mutates the deque of a nested concatenation it unpacks; the model copies it.
- A null inner iterator, which the code would dereference, is not modelled.
- ConcatIterator.ConcatenatedIterator.Remove: its effect on the underlying collection is left out. The model returns which iterator the removal goes to.
- The dispatcher's queue holds the sequence of subscribers the iterator will yield, not the iterator object. The snapshots `subscribersFor` hands out are fixed when the post starts.
- EventDispatch.DefaultEventDispatcher.Dispatch: a fuel bound on the number of invocations stands in for a drain that may never end. With the fuel spent, the drain stops and reports itself incomplete.
- What a subscriber does is a parameter: the events it posts and how its call ends. Subscribers that register or unregister during a dispatch are not modelled.
- An exception handler that posts events is not modelled. The handler is a function whose failure is caught.
- The dispatcher records each report as an action of its trace. `Bus.EventBus.HandleException` models one such call on its own.
- Bus.EventBus.Post: a nested post of an event whose class is not in the class table reaches nobody.
- The subscriber sets compare subscribers structurally: the same target, the same method declaration and the same kind. The code compares them with `MethodEventSubscriber.equals`, which looks only at the target and the method's class, name, return type and parameter types. The two agree as long as no class declares two methods with the same signature, which Java guarantees but `Types.ValidTable` does not require.
- Strings.CorrectedStaysWithinBounds: it covers bounds of one address family only. The static initialiser reads the lower bound only up to the upper bound's length (Strings.java:37-48), so it also accepts an IPv6 lower bound with an IPv4 upper bound. For such mixed bounds the corrected derivation can still leave the multicast range: the first byte can be 255.
- The static initialisers are modelled as giving their own exception (IllegalArgumentException, or IndexOutOfBoundsException from the range loop). A caller of the class sees that exception wrapped in ExceptionInInitializerError on first use, and NoClassDefFoundError on every later use. That wrapping is not modelled.
- Pair components compare by value, where the code calls their `equals`. Their hash codes, like Class and method hashes and identity hashes, are given functions; for pairs these are fixed once in `PairClass`, standing for the component types' `hashCode`.
- Strings are sequences of UTF-16 code units taken as `char`, and `String.hashCode` is computed over them.

## Findings

| source | as written | input that shows it | evidently intended | confidence | as-written member | corrected member |
|---|---|---|---|---|---|---|
| src/main/java/me/jezza/ion/utils/Strings.java:79-82 | a hash byte below the range byte is copied without adding the lower bound, and the modulus divides by the signed range byte | the name "a" (hash code 97) with the default bounds 224.0.0.1 to 239.255.255.255 derives 0.0.0.97, which is not multicast | every byte is `hash byte % unsigned range byte + lower byte`, so for bounds of one address family each byte is at least its lower byte and below its upper byte where that is larger, and the address is multicast | not executed | Strings.DefaultBoundsDeriveNonMulticast | Strings.CorrectedStaysWithinBounds |

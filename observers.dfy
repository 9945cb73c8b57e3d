/** The topic-keyed observer registry the code-block handler acts through
    (`SealObserver`): every topic holds its subscriptions in registration
    order, each subscription carrying the tag it was registered with. */
module Observers {

  /** `file:<url>` and `table:<name>`. */
  datatype Topic = FileTopic(url: string) | TableTopic(name: string)

  datatype Subscription<C> = Subscription(callback: C, tag: string)

  type Registry<C> = map<Topic, seq<Subscription<C>>>

  /** The subscriptions of a topic, oldest first; none for an unknown topic. */
  function Subscribers<C>(reg: Registry<C>, topic: Topic): seq<Subscription<C>> {
    if topic in reg then reg[topic] else []
  }

  /** `registerObserver(topic, callback, tag)`: appends to the topic, leaves the others alone. */
  function Register<C>(reg: Registry<C>, topic: Topic, sub: Subscription<C>): (r: Registry<C>)
    ensures Subscribers(r, topic) == Subscribers(reg, topic) + [sub]
    ensures forall t :: t != topic ==> Subscribers(r, t) == Subscribers(reg, t)
  {
    reg[topic := Subscribers(reg, topic) + [sub]]
  }

  /** `a` is `b` with some elements left out, the rest in their order. */
  ghost predicate Subsequence<T>(a: seq<T>, b: seq<T>)
    decreases |b|
  {
    if a == [] then true
    else if b == [] then false
    else (a[0] == b[0] && Subsequence(a[1..], b[1..])) || Subsequence(a, b[1..])
  }

  /** The subscriptions not carrying `tag`, in their original order. */
  function Untagged<C(!new)>(subs: seq<Subscription<C>>, tag: string): (r: seq<Subscription<C>>)
    ensures |r| <= |subs|
    ensures forall s :: s in r <==> s in subs && s.tag != tag
  {
    if |subs| == 0 then []
    else if subs[0].tag == tag then Untagged(subs[1..], tag)
    else [subs[0]] + Untagged(subs[1..], tag)
  }

  /** Filtering keeps every other subscription as often as it occurs, and in
      its original order. */
  lemma {:induction false} UntaggedKeeps<C(!new)>(subs: seq<Subscription<C>>, tag: string)
    ensures forall s :: multiset(Untagged(subs, tag))[s] == if s.tag == tag then 0 else multiset(subs)[s]
    ensures Subsequence(Untagged(subs, tag), subs)
  {
    if |subs| > 0 {
      var rest := Untagged(subs[1..], tag);
      UntaggedKeeps(subs[1..], tag);
      assert subs == [subs[0]] + subs[1..];
      assert multiset(subs) == multiset{subs[0]} + multiset(subs[1..]);
      if subs[0].tag != tag {
        var r := [subs[0]] + rest;
        assert r[1..] == rest;
        assert multiset(r) == multiset{subs[0]} + multiset(rest);
      } else if rest != [] {
        assert Subsequence(rest, subs[1..]);
      }
    }
  }

  /** `unregisterObserversByTag(tag)`: every topic loses the subscriptions with that tag. */
  function WithoutTag<C(!new)>(reg: Registry<C>, tag: string): (r: Registry<C>)
    ensures forall t :: Subscribers(r, t) == Untagged(Subscribers(reg, t), tag)
  {
    map t | t in reg :: Untagged(reg[t], tag)
  }

  /** `hasAnyObserver(topics)`: some topic of the list has a subscription. */
  predicate HasAnyObserver<C>(reg: Registry<C>, topics: seq<Topic>) {
    exists i :: 0 <= i < |topics| && Subscribers(reg, topics[i]) != []
  }

  // ---------------------------------------------------------------------------
  // Properties of the registry.

  lemma {:induction false} UntaggedAppend<C(!new)>(a: seq<Subscription<C>>, b: seq<Subscription<C>>, tag: string)
    ensures Untagged(a + b, tag) == Untagged(a, tag) + Untagged(b, tag)
  {
    if |a| == 0 {
      assert a + b == b;
    } else {
      assert (a + b)[0] == a[0];
      assert (a + b)[1..] == a[1..] + b;
      UntaggedAppend(a[1..], b, tag);
    }
  }

  /** Filtering twice by the same tag filters nothing more. */
  lemma {:induction false} UntaggedIdempotent<C(!new)>(subs: seq<Subscription<C>>, tag: string)
    ensures Untagged(Untagged(subs, tag), tag) == Untagged(subs, tag)
  {
    if |subs| > 0 {
      UntaggedIdempotent(subs[1..], tag);
      if subs[0].tag != tag {
        var rest := Untagged(subs[1..], tag);
        assert ([subs[0]] + rest)[1..] == rest;
      }
    }
  }

  /** Subscriptions with no matching tag are kept as they are. */
  lemma {:induction false} UntaggedNone<C(!new)>(subs: seq<Subscription<C>>, tag: string)
    requires forall i :: 0 <= i < |subs| ==> subs[i].tag != tag
    ensures Untagged(subs, tag) == subs
  {
    if |subs| > 0 {
      UntaggedNone(subs[1..], tag);
      assert subs == [subs[0]] + subs[1..];
    }
  }

  /** Unregistering a tag twice is the same as once. */
  lemma WithoutTagIdempotent<C(!new)>(reg: Registry<C>, tag: string)
    ensures WithoutTag(WithoutTag(reg, tag), tag) == WithoutTag(reg, tag)
  {
    var once := WithoutTag(reg, tag);
    forall t | t in once ensures WithoutTag(once, tag)[t] == once[t] {
      UntaggedIdempotent(reg[t], tag);
    }
  }

  /** A registration is undone by unregistering its tag: every topic then has
      the subscribers it would have had without the registration. */
  lemma RegisterThenUnregister<C(!new)>(reg: Registry<C>, topic: Topic, callback: C, tag: string)
    ensures forall t :: Subscribers(WithoutTag(Register(reg, topic, Subscription(callback, tag)), tag), t) ==
                        Subscribers(WithoutTag(reg, tag), t)
  {
    var sub := Subscription(callback, tag);
    UntaggedAppend(Subscribers(reg, topic), [sub], tag);
    assert Untagged([sub], tag) == [];
    assert Untagged(Subscribers(reg, topic), tag) + [] == Untagged(Subscribers(reg, topic), tag);
  }
}

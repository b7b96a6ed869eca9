/** Subscriptions: the subscribe toggle and the two list views
    (src/controllers/subscription.controller.js). */
module SubscriptionController {
  import opened Common
  import opened Query
  import opened Entities
  import opened Database
  import opened Toggles

  /** The lookup filter `{ channel, subscriber }`. */
  function SubscriptionOf(subscriber: Id, channel: Id): Subscription -> bool
  {
    (s: Subscription) => s.subscriber == subscriber && s.channel == channel
  }

  function NewSubscription(id: Id, subscriber: Id, channel: Id): (s: Subscription)
    ensures SubscriptionOf(subscriber, channel)(s) && s.id == id
  {
    Subscription(id, subscriber, channel)
  }

  datatype SubscribeReply = Subscribed(subscription: Subscription) | Unsubscribed

  /** toggleSubscription: 404 on a malformed channel id; otherwise subscribe when there is no edge
      (principal, channel) and delete the edge found when there is one. A principal may subscribe to
      their own channel. */
  function ToggleSubscriptionSpec(subs: seq<Subscription>, principal: Id, channelId: IdParam, nid: Id)
    : (r: Step<seq<Subscription>, SubscribeReply>)
    ensures !IsValidObjectId(channelId) ==> r == Step(Err(ApiError(404, "channel Id is invalid")), subs)
    ensures IsValidObjectId(channelId) ==> r.reply.Ok?
    ensures IsValidObjectId(channelId) ==>
      (r.reply.value.Subscribed? <==> forall s :: s in subs ==> !SubscriptionOf(principal, channelId.id)(s))
    ensures r.reply.Ok? && r.reply.value.Subscribed? ==>
      r.reply.value.subscription == NewSubscription(nid, principal, channelId.id) &&
      r.state == subs + [NewSubscription(nid, principal, channelId.id)]
    ensures r.reply.Ok? && r.reply.value.Unsubscribed? ==> |r.state| == |subs| - 1
  {
    match channelId
    case Malformed(_) => Step(Err(ApiError(404, "channel Id is invalid")), subs)
    case ObjectId(c) =>
      var (outcome, state) := Toggle(subs, SubscriptionOf(principal, c), SubscriptionKey, NewSubscription(nid, principal, c));
      Step(Ok(if outcome.Created? then Subscribed(outcome.edge) else Unsubscribed), state)
  }

  /** The edge (principal, channel) exists after a toggle exactly when it did not before. */
  lemma ToggleSubscriptionCount(subs: seq<Subscription>, principal: Id, channel: Id, nid: Id)
    requires Keyed(subs, SubscriptionKey, nid)
    requires |Find(subs, SubscriptionOf(principal, channel))| <= 1
    ensures |Find(ToggleSubscriptionSpec(subs, principal, ObjectId(channel), nid).state, SubscriptionOf(principal, channel))|
         == 1 - |Find(subs, SubscriptionOf(principal, channel))|
  {
    ToggleCount(subs, SubscriptionOf(principal, channel), SubscriptionKey, NewSubscription(nid, principal, channel), nid);
  }

  /** Subscribing and then unsubscribing gives back exactly the original subscriptions. */
  lemma ToggleSubscriptionTwiceRestores(subs: seq<Subscription>, principal: Id, channel: Id, nid: Id, nid': Id)
    requires Keyed(subs, SubscriptionKey, nid)
    requires forall s :: s in subs ==> !SubscriptionOf(principal, channel)(s)
    ensures ToggleSubscriptionSpec(subs, principal, ObjectId(channel), nid).reply.value.Subscribed?
    ensures ToggleSubscriptionSpec(ToggleSubscriptionSpec(subs, principal, ObjectId(channel), nid).state, principal, ObjectId(channel), nid')
         == Step(Ok(Unsubscribed), subs)
  {
    ToggleTwiceFromAbsent(subs, SubscriptionOf(principal, channel), SubscriptionKey,
      NewSubscription(nid, principal, channel), NewSubscription(nid', principal, channel), nid);
  }

  /** A toggle touches only the edge (principal, channel): every other pair's edges are as they were. */
  lemma ToggleSubscriptionOthers(subs: seq<Subscription>, principal: Id, channel: Id, nid: Id, subscriber': Id, channel': Id)
    requires Keyed(subs, SubscriptionKey, nid)
    requires (subscriber', channel') != (principal, channel)
    ensures Find(ToggleSubscriptionSpec(subs, principal, ObjectId(channel), nid).state, SubscriptionOf(subscriber', channel'))
         == Find(subs, SubscriptionOf(subscriber', channel'))
  {
    ToggleOthersUnchanged(subs, SubscriptionOf(principal, channel), SubscriptionKey,
      NewSubscription(nid, principal, channel), nid, SubscriptionOf(subscriber', channel'));
  }

  /** Nothing stops a user from subscribing to their own channel. */
  lemma SelfSubscriptionAccepted(subs: seq<Subscription>, principal: Id, nid: Id)
    requires forall s :: s in subs ==> !(s.subscriber == principal && s.channel == principal)
    ensures ToggleSubscriptionSpec(subs, principal, ObjectId(principal), nid)
         == Step(Ok(Subscribed(Subscription(nid, principal, principal))), subs + [Subscription(nid, principal, principal)])
  {
  }

  /** toggleSubscription against the store. */
  method ToggleSubscription(store: Store, principal: Id, channelId: IdParam) returns (r: Result<SubscribeReply>)
    requires store.Valid()
    modifies store`subscriptions, store`nextId
    ensures store.Valid()
    ensures Step(r, store.subscriptions) == ToggleSubscriptionSpec(old(store.subscriptions), principal, channelId, old(store.nextId))
  {
    if !IsValidObjectId(channelId) {
      return Err(ApiError(404, "channel Id is invalid"));
    }
    var channel := channelId.id;
    var subscribed := FindOne(store.subscriptions, SubscriptionOf(principal, channel));
    if subscribed.None? {
      var id := store.NewId();
      var created := NewSubscription(id, principal, channel);
      KeyedAppend(store.subscriptions, SubscriptionKey, id, created);
      store.subscriptions := store.subscriptions + [created];
      return Ok(Subscribed(created));
    }
    var found := HasKey(SubscriptionKey, subscribed.value.id);
    KeyedDelete(store.subscriptions, SubscriptionKey, store.nextId, found);
    store.subscriptions := FindOneAndDelete(store.subscriptions, found);
    r := Ok(Unsubscribed);
  }

  /** Filters of the two list views. */
  function ChannelIs(channel: Id): Subscription -> bool
  {
    (s: Subscription) => s.channel == channel
  }

  function SubscriberIs(subscriber: Id): Subscription -> bool
  {
    (s: Subscription) => s.subscriber == subscriber
  }

  /** One row of the subscriber list: the edge with `subscriber` replaced by the user's projection. */
  datatype SubscriberEntry = SubscriberEntry(edge: Subscription, subscriber: Option<OwnerView>)

  function SubscriberEntryIn(users: seq<User>): Subscription -> SubscriberEntry
  {
    (s: Subscription) => SubscriberEntry(s, LookupOwner(users, s.subscriber))
  }

  /** getUserChannelSubscribers: 401 on a malformed id, 401 again when the channel has no subscriber,
      otherwise one row per edge into the channel, in collection order. */
  function ChannelSubscribers(subs: seq<Subscription>, users: seq<User>, channelId: IdParam)
    : (r: Result<seq<SubscriberEntry>>)
    ensures !IsValidObjectId(channelId) ==> r == Err(ApiError(401, "channel id is invalid"))
    ensures IsValidObjectId(channelId) ==>
      (r.Ok? <==> exists s :: s in subs && s.channel == channelId.id)
    ensures IsValidObjectId(channelId) && r.Err? ==>
      r.error == ApiError(401, "something went wrong while fetching subscribers")
    ensures r.Ok? ==> |r.value| == |Find(subs, ChannelIs(channelId.id))|
    ensures r.Ok? ==> forall e :: e in r.value ==>
      e.edge in subs && e.edge.channel == channelId.id && e.subscriber == LookupOwner(users, e.edge.subscriber)
    ensures r.Ok? ==> forall s :: s in subs && s.channel == channelId.id ==>
      SubscriberEntry(s, LookupOwner(users, s.subscriber)) in r.value
  {
    match channelId
    case Malformed(_) => Err(ApiError(401, "channel id is invalid"))
    case ObjectId(c) =>
      var edges := Find(subs, ChannelIs(c));
      var rows := Map(edges, SubscriberEntryIn(users));
      FindEmpty(subs, ChannelIs(c));
      forall e | e in rows ensures e.edge in edges && e.subscriber == LookupOwner(users, e.edge.subscriber) {
        MapMember(edges, SubscriberEntryIn(users), e);
      }
      forall s | s in subs && s.channel == c ensures SubscriberEntry(s, LookupOwner(users, s.subscriber)) in rows {
        MapMember(edges, SubscriberEntryIn(users), SubscriberEntry(s, LookupOwner(users, s.subscriber)));
      }
      if rows == [] then Err(ApiError(401, "something went wrong while fetching subscribers")) else Ok(rows)
  }

  /** One row of the subscribed-channels list. */
  datatype ChannelEntry = ChannelEntry(edge: Subscription, channel: Option<OwnerView>)

  /** The `$lookup` of getSubscribedChannels joins on the edge's `subscriber`, not its `channel`. */
  function ChannelEntryIn(users: seq<User>): Subscription -> ChannelEntry
  {
    (s: Subscription) => ChannelEntry(s, LookupOwner(users, s.subscriber))
  }

  /** getSubscribedChannels: 401 on a malformed id, otherwise one row per edge out of the subscriber
      (the empty list included: its `!channel` check never fires on an array). */
  function SubscribedChannels(subs: seq<Subscription>, users: seq<User>, subscriberId: IdParam)
    : (r: Result<seq<ChannelEntry>>)
    ensures !IsValidObjectId(subscriberId) ==> r == Err(ApiError(401, "subscriber id is invalid"))
    ensures IsValidObjectId(subscriberId) ==> r.Ok? && |r.value| == |Find(subs, SubscriberIs(subscriberId.id))|
    ensures r.Ok? ==> forall e :: e in r.value ==>
      e.edge in subs && e.edge.subscriber == subscriberId.id && e.channel == LookupOwner(users, subscriberId.id)
    ensures r.Ok? ==> forall s :: s in subs && s.subscriber == subscriberId.id ==>
      ChannelEntry(s, LookupOwner(users, s.subscriber)) in r.value
  {
    match subscriberId
    case Malformed(_) => Err(ApiError(401, "subscriber id is invalid"))
    case ObjectId(s) =>
      var edges := Find(subs, SubscriberIs(s));
      var rows := Map(edges, ChannelEntryIn(users));
      forall e | e in rows ensures e.edge in edges && e.channel == LookupOwner(users, s) {
        MapMember(edges, ChannelEntryIn(users), e);
      }
      forall x | x in subs && x.subscriber == s ensures ChannelEntry(x, LookupOwner(users, x.subscriber)) in rows {
        MapMember(edges, ChannelEntryIn(users), ChannelEntry(x, LookupOwner(users, x.subscriber)));
      }
      Ok(rows)
  }

  /** Every row of the subscribed-channels list shows the subscriber's own projection in its
      `channel` field, whatever channel the edge points at. */
  lemma SubscribedChannelsShowSubscriber(subs: seq<Subscription>, users: seq<User>, subscriber: Id)
    ensures forall e :: e in SubscribedChannels(subs, users, ObjectId(subscriber)).value ==>
      e.channel == LookupOwner(users, subscriber)
  {
    var edges := Find(subs, SubscriberIs(subscriber));
    forall e | e in Map(edges, ChannelEntryIn(users)) ensures e.channel == LookupOwner(users, subscriber) {
      MapMember(edges, ChannelEntryIn(users), e);
    }
  }

  /** A concrete instance: user 1 follows user 2, yet the row lists user 1 as the channel. */
  lemma SubscribedChannelsNamesTheWrongUser()
    ensures var alice := User(1, "alice", "a@x", "Alice", "a.png", "", "pw", []);
            var bob := User(2, "bob", "b@x", "Bob", "b.png", "", "pw", []);
            var rows := SubscribedChannels([Subscription(3, 1, 2)], [alice, bob], ObjectId(1)).value;
            |rows| == 1 && rows[0].edge.channel == 2 && rows[0].channel == Some(Projected(alice))
  {
    var alice := User(1, "alice", "a@x", "Alice", "a.png", "", "pw", []);
    var bob := User(2, "bob", "b@x", "Bob", "b.png", "", "pw", []);
    var subs := [Subscription(3, 1, 2)];
    assert Find(subs, SubscriberIs(1)) == subs by {
      assert subs[1..] == [];
    }
    assert UserKey(alice) == 1;
    assert HasKey(UserKey, 1)(alice);
    assert IndexOf([alice, bob], HasKey(UserKey, 1)) == 0;
  }
}

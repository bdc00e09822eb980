/** The channel layer the consumers use for fan-out: a registry from group
    name to the set of channel names subscribed to it, and for each channel
    the queue of events delivered to it. Calls are sequential transitions. */
module ChannelLayer {

  type Groups = map<string, set<string>>

  /** The channels subscribed to `group` (none when the group is unknown). */
  function Subscribers(groups: Groups, group: string): set<string> {
    if group in groups then groups[group] else {}
  }

  /** The registry keeps no empty group. */
  predicate NoEmptyGroups(groups: Groups) {
    forall g :: g in groups ==> groups[g] != {}
  }

  /** `group_add`: subscribe `channel` to `group`, creating the group if needed. */
  function AddToGroup(groups: Groups, group: string, channel: string): (r: Groups)
    ensures Subscribers(r, group) == Subscribers(groups, group) + {channel}
    ensures forall g :: g != group ==> Subscribers(r, g) == Subscribers(groups, g)
    ensures NoEmptyGroups(groups) ==> NoEmptyGroups(r)
  {
    groups[group := Subscribers(groups, group) + {channel}]
  }

  /** `group_discard`: unsubscribe `channel` from `group`, dropping the group
      once it is empty. */
  function DiscardFromGroup(groups: Groups, group: string, channel: string): (r: Groups)
    ensures Subscribers(r, group) == Subscribers(groups, group) - {channel}
    ensures forall g :: g != group ==> Subscribers(r, g) == Subscribers(groups, g)
    ensures NoEmptyGroups(groups) ==> NoEmptyGroups(r)
  {
    var rest := Subscribers(groups, group) - {channel};
    if rest == {} then groups - {group} else groups[group := rest]
  }

  /** Joining twice leaves the registry as joining once. */
  lemma AddIdempotent(groups: Groups, group: string, channel: string)
    ensures AddToGroup(AddToGroup(groups, group, channel), group, channel) == AddToGroup(groups, group, channel)
  {
  }

  /** A join followed by the matching leave restores the registry exactly,
      for a channel that was not yet subscribed. */
  lemma DiscardUndoesAdd(groups: Groups, group: string, channel: string)
    requires NoEmptyGroups(groups)
    requires channel !in Subscribers(groups, group)
    ensures DiscardFromGroup(AddToGroup(groups, group, channel), group, channel) == groups
  {
    var r := DiscardFromGroup(AddToGroup(groups, group, channel), group, channel);
    assert Subscribers(groups, group) + {channel} - {channel} == Subscribers(groups, group);
    assert r.Keys == groups.Keys;
    forall g | g in groups
      ensures r[g] == groups[g]
    {
      assert Subscribers(r, g) == Subscribers(groups, g);
    }
  }

  /** What a channel has been sent so far. */
  function Inbox<E>(inboxes: map<string, seq<E>>, channel: string): seq<E> {
    if channel in inboxes then inboxes[channel] else []
  }

  /** `group_send` to a snapshot of the subscribers: each of them, and no
      other channel, receives `event` once, after what it already had. */
  function Deliver<E>(inboxes: map<string, seq<E>>, recipients: set<string>, event: E): (r: map<string, seq<E>>)
    ensures forall c :: Inbox(r, c) == if c in recipients then Inbox(inboxes, c) + [event] else Inbox(inboxes, c)
  {
    map c | c in inboxes.Keys + recipients :: if c in recipients then Inbox(inboxes, c) + [event] else inboxes[c]
  }

  /** The channel layer: the group registry and the per-channel event queues. */
  class Layer<E> {
    var groups: Groups
    var inboxes: map<string, seq<E>>

    ghost predicate Valid()
      reads this
    {
      NoEmptyGroups(groups)
    }

    constructor ()
      ensures Valid() && groups == map[] && inboxes == map[]
    {
      groups, inboxes := map[], map[];
    }

    method GroupAdd(group: string, channel: string)
      requires Valid()
      modifies this
      ensures Valid()
      ensures groups == AddToGroup(old(groups), group, channel)
      ensures inboxes == old(inboxes)
    {
      groups := AddToGroup(groups, group, channel);
    }

    method GroupDiscard(group: string, channel: string)
      requires Valid()
      modifies this
      ensures Valid()
      ensures groups == DiscardFromGroup(old(groups), group, channel)
      ensures inboxes == old(inboxes)
    {
      groups := DiscardFromGroup(groups, group, channel);
    }

    method GroupSend(group: string, event: E)
      requires Valid()
      modifies this
      ensures Valid()
      ensures groups == old(groups)
      ensures inboxes == Deliver(old(inboxes), Subscribers(old(groups), group), event)
    {
      var snapshot := Subscribers(groups, group);
      inboxes := Deliver(inboxes, snapshot, event);
    }
  }
}

/**
 * The notification watcher: a registry of handlers per topic, keyed by
 * the handler's type name, plus one concurrency channel per stateful
 * handler type whose bound count is the number of topics that type is
 * bound to as a stateful handler.
 */
module Notifier {
  import opened Wrappers
  import opened GoStrings

  /** A notification handler: its type name (reflect.TypeOf(h).String()) and whether it is stateful. */
  datatype Handler = Handler(typ: string, stateful: bool)

  /** The topic → (handler type → handler) table. */
  type Handlers = map<string, map<string, Handler>>

  datatype NotifierError =
    | EmptyTopic
    | NilHandler
    | AlreadyRegistered(topic: string, typ: string)
    | RevokeFailed(handler: string, topic: string)
    | NoHandlers(topic: string)

  /** The handlers a topic has, none when the topic is absent. */
  function Indexer(hs: Handlers, topic: string): map<string, Handler> {
    if topic in hs then hs[topic] else map[]
  }

  /** Whether the topic has a stateful handler of type t. */
  predicate Stateful(hs: Handlers, topic: string, t: string) {
    topic in hs && t in hs[topic] && hs[topic][t].stateful
  }

  /** How many topics bind type t as a stateful handler. */
  function BoundCount(hs: Handlers, t: string): nat {
    |set topic | topic in hs && Stateful(hs, topic, t)|
  }

  /**
   * The watcher's invariant: no topic is kept without handlers, every
   * handler is filed under its own type name, and there is a channel for
   * exactly the types some topic binds statefully, counting those topics.
   */
  ghost predicate Consistent(hs: Handlers, channels: map<string, nat>) {
    (forall topic :: topic in hs ==> hs[topic] != map[])
    && (forall topic, t :: topic in hs && t in hs[topic] ==> hs[topic][t].typ == t)
    && CountsMatch(hs, channels)
    && ChannelsCover(hs, channels)
  }

  /** There is a channel only for a type some topic binds statefully, and its count is the number of such topics. */
  ghost predicate CountsMatch(hs: Handlers, channels: map<string, nat>) {
    forall t :: t in channels ==> channels[t] == BoundCount(hs, t) && channels[t] > 0
  }

  /** Every type some topic binds statefully has a channel. */
  ghost predicate ChannelsCover(hs: Handlers, channels: map<string, nat>) {
    forall topic, t :: Stateful(hs, topic, t) ==> t in channels
  }

  /** The table after Handle registers h under topic. */
  function AddHandler(hs: Handlers, topic: string, h: Handler): Handlers {
    hs[topic := Indexer(hs, topic)[h.typ := h]]
  }

  /** The table after revoking type t from topic; the topic goes with its last handler. */
  function RemoveHandler(hs: Handlers, topic: string, t: string): Handlers
    requires topic in hs
  {
    var rest := hs[topic] - {t};
    if rest == map[] then hs - {topic} else hs[topic := rest]
  }

  /** The table with topic's handlers cut down to the types in keep. */
  function KeepHandlers(hs: Handlers, topic: string, keep: set<string>): Handlers
    requires topic in hs
  {
    var rest := map t | t in hs[topic] && t in keep :: hs[topic][t];
    if rest == map[] then hs - {topic} else hs[topic := rest]
  }

  /** Two sets that differ at most in x differ in size by x's membership only. */
  lemma CardinalityChange(s: set<string>, s': set<string>, x: string)
    requires s - {x} == s' - {x}
    ensures |s'| == |s| - (if x in s then 1 else 0) + (if x in s' then 1 else 0)
  {
    if x in s {
      assert s == (s - {x}) + {x};
    } else {
      assert s == s - {x};
    }
    if x in s' {
      assert s' == (s' - {x}) + {x};
    } else {
      assert s' == s' - {x};
    }
  }

  /** Changing one topic's entry changes each type's bound count by that topic's contribution only. */
  lemma BoundCountChange(hs: Handlers, hs': Handlers, topic: string, u: string)
    requires forall tp :: tp != topic ==> (Stateful(hs, tp, u) <==> Stateful(hs', tp, u))
    ensures BoundCount(hs', u) ==
      BoundCount(hs, u) - (if Stateful(hs, topic, u) then 1 else 0) + (if Stateful(hs', topic, u) then 1 else 0)
  {
    var s := set tp | tp in hs && Stateful(hs, tp, u);
    var s' := set tp | tp in hs' && Stateful(hs', tp, u);
    assert s - {topic} == s' - {topic};
    CardinalityChange(s, s', topic);
  }

  /** A type without a channel is bound statefully nowhere. */
  lemma NoChannelNoCount(hs: Handlers, channels: map<string, nat>, t: string)
    requires Consistent(hs, channels) && t !in channels
    ensures BoundCount(hs, t) == 0
  {
    var s := set tp | tp in hs && Stateful(hs, tp, t);
    assert s == {};
  }

  /** The channel table after binding h: a stateful type's count goes up by one, starting at 1. */
  function BindChannel(channels: map<string, nat>, h: Handler): map<string, nat> {
    if !h.stateful then channels
    else channels[h.typ := if h.typ in channels then channels[h.typ] + 1 else 1]
  }

  /** The channel table after unbinding hd: a stateful type's count goes down by one, and its channel goes at 0. */
  function UnbindChannel(channels: map<string, nat>, hd: Handler): map<string, nat> {
    if !hd.stateful || hd.typ !in channels then channels
    else if channels[hd.typ] <= 1 then channels - {hd.typ}
    else channels[hd.typ := channels[hd.typ] - 1]
  }

  /** Handle keeps the channel counts right. */
  lemma AddKeepsCounts(hs: Handlers, channels: map<string, nat>, topic: string, h: Handler)
    requires Consistent(hs, channels) && h.typ !in Indexer(hs, topic)
    ensures CountsMatch(AddHandler(hs, topic, h), BindChannel(channels, h))
  {
    var hs' := AddHandler(hs, topic, h);
    var ch' := BindChannel(channels, h);
    forall u | u in ch' ensures ch'[u] == BoundCount(hs', u) && ch'[u] > 0 {
      BoundCountChange(hs, hs', topic, u);
      if u == h.typ && h.stateful && u !in channels {
        NoChannelNoCount(hs, channels, u);
      }
    }
  }

  /** Handle keeps the invariant. */
  lemma AddKeepsConsistent(hs: Handlers, channels: map<string, nat>, topic: string, h: Handler)
    requires Consistent(hs, channels) && h.typ !in Indexer(hs, topic)
    ensures Consistent(AddHandler(hs, topic, h), BindChannel(channels, h))
  {
    var hs' := AddHandler(hs, topic, h);
    var ch' := BindChannel(channels, h);
    AddKeepsCounts(hs, channels, topic, h);
    forall tp, u | Stateful(hs', tp, u) ensures u in ch' {
      if !(tp == topic && u == h.typ) {
        assert Stateful(hs, tp, u);
      }
    }
  }

  /** Revoking a handler keeps the channel counts right. */
  lemma RemoveKeepsCounts(hs: Handlers, channels: map<string, nat>, topic: string, t: string)
    requires Consistent(hs, channels) && topic in hs && t in hs[topic]
    ensures CountsMatch(RemoveHandler(hs, topic, t), UnbindChannel(channels, hs[topic][t]))
  {
    var hs' := RemoveHandler(hs, topic, t);
    var ch' := UnbindChannel(channels, hs[topic][t]);
    forall u | u in ch' ensures ch'[u] == BoundCount(hs', u) && ch'[u] > 0 {
      BoundCountChange(hs, hs', topic, u);
    }
  }

  /** Revoking a handler leaves a channel for every type still bound statefully. */
  lemma RemoveKeepsCover(hs: Handlers, channels: map<string, nat>, topic: string, t: string)
    requires Consistent(hs, channels) && topic in hs && t in hs[topic]
    ensures ChannelsCover(RemoveHandler(hs, topic, t), UnbindChannel(channels, hs[topic][t]))
  {
    var hd := hs[topic][t];
    var hs' := RemoveHandler(hs, topic, t);
    var ch' := UnbindChannel(channels, hd);
    forall tp, u | Stateful(hs', tp, u) ensures u in ch' {
      assert Stateful(hs, tp, u);
      if u == t && hd.stateful {
        BoundCountChange(hs, hs', topic, u);
        var s' := set x | x in hs' && Stateful(hs', x, u);
        assert tp in s';
      }
    }
  }

  /** Revoking a handler keeps the invariant. */
  lemma RemoveKeepsConsistent(hs: Handlers, channels: map<string, nat>, topic: string, t: string)
    requires Consistent(hs, channels) && topic in hs && t in hs[topic]
    ensures Consistent(RemoveHandler(hs, topic, t), UnbindChannel(channels, hs[topic][t]))
  {
    RemoveKeepsCounts(hs, channels, topic, t);
    RemoveKeepsCover(hs, channels, topic, t);
  }

  /** The channel table is determined by the handler table. */
  lemma {:induction false} ChannelsDetermined(hs: Handlers, c1: map<string, nat>, c2: map<string, nat>)
    requires Consistent(hs, c1) && Consistent(hs, c2)
    ensures c1 == c2
  {
    forall t | t in c1 ensures t in c2 {
      if t !in c2 {
        NoChannelNoCount(hs, c2, t);
      }
    }
    forall t | t in c2 ensures t in c1 {
      if t !in c1 {
        NoChannelNoCount(hs, c1, t);
      }
    }
  }

  /** Registering a new handler type on a topic and revoking it again restores the table. */
  lemma AddRemoveRoundTrip(hs: Handlers, channels: map<string, nat>, topic: string, h: Handler)
    requires Consistent(hs, channels)
    requires h.typ !in Indexer(hs, topic)
    ensures RemoveHandler(AddHandler(hs, topic, h), topic, h.typ) == hs
  {
    var added := AddHandler(hs, topic, h);
    assert added[topic] - {h.typ} == Indexer(hs, topic);
    if topic in hs {
      assert hs[topic := hs[topic]] == hs;
    } else {
      assert added - {topic} == hs;
    }
  }

  /** Handle followed by UnHandle of the same type restores both the handler table and the channel counts. */
  lemma HandleUnHandleRestores(hs: Handlers, channels: map<string, nat>, topic: string, h: Handler)
    requires Consistent(hs, channels)
    requires h.typ !in Indexer(hs, topic)
    ensures RemoveHandler(AddHandler(hs, topic, h), topic, h.typ) == hs
    ensures UnbindChannel(BindChannel(channels, h), h) == channels
  {
    var added := AddHandler(hs, topic, h);
    AddRemoveRoundTrip(hs, channels, topic, h);
    AddKeepsConsistent(hs, channels, topic, h);
    RemoveKeepsConsistent(added, BindChannel(channels, h), topic, h.typ);
    assert added[topic][h.typ] == h;
    ChannelsDetermined(hs, channels, UnbindChannel(BindChannel(channels, h), h));
  }

  /** NotificationWatcher: the handler table and the per-type channel counts. */
  class NotificationWatcher {
    var handlers: Handlers
    var channels: map<string, nat>

    ghost predicate Valid()
      reads this
    {
      Consistent(handlers, channels)
    }

    /** NewNotificationWatcher: no topics, no channels. */
    constructor()
      ensures Valid() && handlers == map[] && channels == map[]
    {
      handlers := map[];
      channels := map[];
    }

    /**
     * Handle: bind a handler to a topic. A blank topic, a nil handler, or a
     * type already on the topic is refused and nothing changes; otherwise
     * the handler is filed under its type and, for a stateful handler, its
     * type's channel count goes up by one (a first binding creates it at 1).
     */
    method Handle(topic: string, handler: Option<Handler>) returns (err: Option<NotifierError>)
      requires Valid()
      modifies this
      ensures Valid()
      ensures TrimSpace(topic) == "" ==> err == Some(EmptyTopic)
      ensures TrimSpace(topic) != "" && handler.None? ==> err == Some(NilHandler)
      ensures TrimSpace(topic) != "" && handler.Some? && handler.value.typ in Indexer(old(handlers), topic) ==>
        err == Some(AlreadyRegistered(topic, handler.value.typ))
      ensures err.Some? ==> handlers == old(handlers) && channels == old(channels)
      ensures err.None? <==>
        TrimSpace(topic) != "" && handler.Some? && handler.value.typ !in Indexer(old(handlers), topic)
      ensures err.None? ==>
        handlers == AddHandler(old(handlers), topic, handler.value)
        && channels == BindChannel(old(channels), handler.value)
    {
      if TrimSpace(topic) == "" {
        return Some(EmptyTopic);
      }
      if handler.None? {
        return Some(NilHandler);
      }
      var h := handler.value;
      var t := h.typ;
      if topic in handlers {
        var indexer := handlers[topic];
        if t in indexer {
          return Some(AlreadyRegistered(topic, t));
        }
        handlers := handlers[topic := indexer[t := h]];
      } else {
        handlers := handlers[topic := map[t := h]];
      }
      if h.stateful {
        if t !in channels {
          channels := channels[t := 1];
        } else {
          channels := channels[t := channels[t] + 1];
        }
      }
      AddKeepsConsistent(old(handlers), old(channels), topic, h);
      return None;
    }

    /** revokeHandler: drop type t from topic, keeping the channel counts in step. */
    method Revoke(topic: string, t: string) returns (revoked: bool)
      requires Valid()
      modifies this
      ensures Valid()
      ensures revoked <==> t in Indexer(old(handlers), topic)
      ensures !revoked ==> handlers == old(handlers) && channels == old(channels)
      ensures revoked ==>
        handlers == RemoveHandler(old(handlers), topic, t)
        && channels == UnbindChannel(old(channels), old(handlers)[topic][t])
    {
      if topic !in handlers || t !in handlers[topic] {
        return false;
      }
      var hd := handlers[topic][t];
      handlers := RemoveHandler(handlers, topic, t);
      channels := UnbindChannel(channels, hd);
      RemoveKeepsConsistent(old(handlers), old(channels), topic, t);
      return true;
    }

    /**
     * UnHandle: revoke the named handler type from a topic, or every
     * handler of the topic when the name is blank. A blank topic, an
     * unknown topic, or a type not on the topic is refused and nothing
     * changes.
     */
    method UnHandle(topic: string, handler: string) returns (err: Option<NotifierError>)
      requires Valid()
      modifies this
      ensures Valid()
      ensures TrimSpace(topic) == "" ==> err == Some(EmptyTopic)
      ensures TrimSpace(topic) != "" && topic !in old(handlers) ==> err == Some(RevokeFailed(handler, topic))
      ensures err.Some? ==> handlers == old(handlers) && channels == old(channels)
      ensures TrimSpace(topic) != "" && topic in old(handlers) && TrimSpace(handler) == "" ==>
        err.None? && handlers == old(handlers) - {topic}
      ensures TrimSpace(topic) != "" && topic in old(handlers) && TrimSpace(handler) != "" ==>
        (handler in old(handlers)[topic] ==> err.None? && handlers == RemoveHandler(old(handlers), topic, handler))
        && (handler !in old(handlers)[topic] ==> err == Some(RevokeFailed(handler, topic)))
    {
      if TrimSpace(topic) == "" {
        return Some(EmptyTopic);
      }
      if topic in handlers {
        if TrimSpace(handler) == "" {
          var h0 := handlers;
          var remaining := handlers[topic].Keys;
          assert KeepHandlers(h0, topic, remaining) == h0 by {
            assert (map t | t in h0[topic] && t in remaining :: h0[topic][t]) == h0[topic];
          }
          while remaining != {}
            invariant Valid()
            invariant remaining <= h0[topic].Keys
            invariant handlers == KeepHandlers(h0, topic, remaining)
            decreases remaining
          {
            var t :| t in remaining;
            KeepOneLess(h0, topic, remaining, t);
            var _ := Revoke(topic, t);
            remaining := remaining - {t};
          }
          assert handlers == h0 - {topic};
          return None;
        }
        var revoked := Revoke(topic, handler);
        if revoked {
          return None;
        }
      }
      return Some(RevokeFailed(handler, topic));
    }

    /**
     * Notify's checks before it dispatches: a blank topic and a topic with
     * no handlers are refused; otherwise every handler of the topic is
     * triggered once, and each stateful one finds its type's channel.
     */
    method Notify(topic: string) returns (r: Result<seq<Handler>, NotifierError>)
      requires Valid()
      ensures TrimSpace(topic) == "" ==> r == Err(EmptyTopic)
      ensures TrimSpace(topic) != "" && topic !in handlers ==> r == Err(NoHandlers(topic))
      ensures r.Ok? <==> TrimSpace(topic) != "" && topic in handlers
      ensures r.Ok? ==>
        |r.value| == |handlers[topic]| && r.value != []
        && (forall t :: t in handlers[topic] ==> handlers[topic][t] in r.value)
        && (forall k :: 0 <= k < |r.value| ==> r.value[k] in handlers[topic].Values)
        && (forall k :: 0 <= k < |r.value| && r.value[k].stateful ==> r.value[k].typ in channels)
    {
      if TrimSpace(topic) == "" {
        return Err(EmptyTopic);
      }
      if topic !in handlers {
        return Err(NoHandlers(topic));
      }
      var indexer := handlers[topic];
      var picked: seq<Handler> := [];
      var remaining := indexer.Keys;
      while remaining != {}
        invariant remaining <= indexer.Keys
        invariant |picked| + |remaining| == |indexer|
        invariant forall t :: t in indexer && t !in remaining ==> indexer[t] in picked
        invariant forall k :: 0 <= k < |picked| ==> picked[k] in indexer.Values && picked[k].typ !in remaining
        decreases remaining
      {
        var t :| t in remaining;
        picked := picked + [indexer[t]];
        remaining := remaining - {t};
      }
      assert |indexer| > 0 by {
        assert indexer != map[];
        var t :| t in indexer;
      }
      forall k | 0 <= k < |picked| && picked[k].stateful ensures picked[k].typ in channels {
        var t :| t in indexer && indexer[t] == picked[k];
        assert Stateful(handlers, topic, t);
      }
      return Ok(picked);
    }
  }

  /** Revoking one kept type is keeping one type fewer. */
  lemma KeepOneLess(hs: Handlers, topic: string, keep: set<string>, t: string)
    requires topic in hs && t in keep && keep <= hs[topic].Keys
    ensures var kept := KeepHandlers(hs, topic, keep);
      topic in kept && t in kept[topic]
      && KeepHandlers(hs, topic, keep - {t}) == RemoveHandler(kept, topic, t)
  {
    var rest := map u | u in hs[topic] && u in keep :: hs[topic][u];
    assert t in rest;
    var rest' := map u | u in hs[topic] && u in keep - {t} :: hs[topic][u];
    assert rest' == rest - {t};
    if rest' != map[] {
      assert hs[topic := rest][topic := rest'] == hs[topic := rest'];
    } else {
      assert hs[topic := rest] - {topic} == hs - {topic};
    }
  }
}

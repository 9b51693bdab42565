/** Live log delivery (LogHub in internal/gitops/worker.go): per-repository subscriptions
    and the dashboard's firehose, over bounded channels that drop what does not fit.
  */
module LogHub {
  // ---------------------------------------------------------------------- subsequences

  /** xs is ys with some elements left out, in order. */
  ghost predicate IsSubsequence<T>(xs: seq<T>, ys: seq<T>) {
    if xs == [] then true
    else if ys == [] then false
    else if xs[|xs| - 1] == ys[|ys| - 1] && IsSubsequence(xs[..|xs| - 1], ys[..|ys| - 1]) then true
    else IsSubsequence(xs, ys[..|ys| - 1])
  }

  lemma SubsequenceSkips<T>(xs: seq<T>, ys: seq<T>, y: T)
    requires IsSubsequence(xs, ys)
    ensures IsSubsequence(xs, ys + [y])
  {
    assert (ys + [y])[..|ys|] == ys;
  }

  lemma SubsequenceTakes<T>(xs: seq<T>, ys: seq<T>, y: T)
    requires IsSubsequence(xs, ys)
    ensures IsSubsequence(xs + [y], ys + [y])
  {
    assert (ys + [y])[..|ys|] == ys && (xs + [y])[..|xs|] == xs;
  }

  /** The reading by positions: an increasing choice of them. */
  ghost predicate Chooses<T>(at: seq<nat>, xs: seq<T>, ys: seq<T>) {
    && |at| == |xs|
    && (forall i, j :: 0 <= i < j < |at| ==> at[i] < at[j])
    && (forall i :: 0 <= i < |at| ==> at[i] < |ys| && xs[i] == ys[at[i]])
  }

  lemma {:induction false} SubsequenceIsChoice<T>(xs: seq<T>, ys: seq<T>) returns (at: seq<nat>)
    requires IsSubsequence(xs, ys)
    ensures Chooses(at, xs, ys)
    decreases |ys|
  {
    if xs == [] {
      at := [];
    } else if xs[|xs| - 1] == ys[|ys| - 1] && IsSubsequence(xs[..|xs| - 1], ys[..|ys| - 1]) {
      at := SubsequenceIsChoice(xs[..|xs| - 1], ys[..|ys| - 1]);
      at := at + [|ys| - 1];
    } else {
      at := SubsequenceIsChoice(xs, ys[..|ys| - 1]);
    }
  }

  // -------------------------------------------------------------------------- channels

  class Channel<T> {
    const capacity: nat
    var buffer: seq<T>
    var closed: bool
    ghost var received: seq<T>   // what the subscriber has taken
    ghost var offered: seq<T>    // every broadcast since it subscribed

    constructor (capacity: nat)
      ensures this.capacity == capacity && Open() && buffer == received == offered == []
    {
      this.capacity := capacity;
      buffer, closed, received, offered := [], false, [], [];
    }

    // The channel is open, within its capacity, and has lost nothing but whole messages.
    ghost predicate Open()
      reads this
    {
      !closed && |buffer| <= capacity && IsSubsequence(received + buffer, offered)
    }

    /** A non-blocking send; sending on a closed channel would panic. */
    method Offer(x: T)
      requires Open()
      modifies this`buffer, this`offered
      ensures Open() && offered == old(offered) + [x]
      ensures buffer == if |old(buffer)| < capacity then old(buffer) + [x] else old(buffer)
    {
      offered := offered + [x];
      if |buffer| < capacity {
        SubsequenceTakes(received + buffer, old(offered), x);
        assert received + (buffer + [x]) == received + buffer + [x];
        buffer := buffer + [x];
      } else {
        SubsequenceSkips(received + buffer, old(offered), x);
      }
    }

    /** The subscriber takes the oldest message. */
    method Receive() returns (x: T)
      requires buffer != []
      modifies this`buffer, this`received
      ensures old(buffer) == [x] + buffer && received == old(received) + [x]
      ensures old(Open()) ==> Open()
    {
      x := buffer[0];
      assert received + buffer == (received + [x]) + buffer[1..];
      buffer, received := buffer[1..], received + [x];
    }

    /** Closing a closed channel would panic. */
    method Close()
      requires !closed
      modifies this`closed
      ensures closed
    {
      closed := true;
    }
  }

  datatype Firehose = Firehose(repositoryID: string, repositoryName: string, line: string)

  ghost predicate NoDuplicates<T>(xs: seq<T>) {
    forall i, j :: 0 <= i < j < |xs| ==> xs[i] != xs[j]
  }

  function Without<T>(xs: seq<T>, i: nat): seq<T>
    requires i < |xs|
  {
    xs[..i] + xs[i + 1..]
  }

  /** Taking one element out of a list without duplicates leaves the others, in order. */
  lemma WithoutOne<T>(xs: seq<T>, i: nat)
    requires i < |xs| && NoDuplicates(xs)
    ensures NoDuplicates(Without(xs, i)) && xs[i] !in Without(xs, i)
    ensures (forall x :: x in Without(xs, i) ==> x in xs) && forall x :: x in xs && x != xs[i] ==> x in Without(xs, i)
    ensures IsSubsequence(Without(xs, i), xs)
  {
    hide IsSubsequence;
    WithoutInOrder(xs, i);
    forall x | x in xs && x != xs[i] ensures x in Without(xs, i) {
      var k :| 0 <= k < |xs| && xs[k] == x;
      assert Without(xs, i)[if k < i then k else k - 1] == x;
    }
  }

  lemma WithoutInOrder<T>(xs: seq<T>, i: nat)
    requires i < |xs|
    ensures IsSubsequence(Without(xs, i), xs)
  {
    hide IsSubsequence;
    SubsequenceOfSelf(xs[..i]);
    SubsequenceSkips(xs[..i], xs[..i], xs[i]);
    assert xs[..i] + [xs[i]] == xs[..i + 1];
    SubsequenceTail(xs[..i], xs[..i + 1], xs[i + 1..]);
    assert xs[..i + 1] + xs[i + 1..] == xs;
  }

  lemma {:induction false} SubsequenceOfSelf<T>(xs: seq<T>)
    ensures IsSubsequence(xs, xs)
  {
    if xs != [] {
      SubsequenceOfSelf(xs[..|xs| - 1]);
    }
  }

  lemma {:induction false} SubsequenceTail<T>(xs: seq<T>, ys: seq<T>, zs: seq<T>)
    requires IsSubsequence(xs, ys)
    ensures IsSubsequence(xs + zs, ys + zs)
  {
    if zs == [] {
      assert xs + zs == xs && ys + zs == ys;
    } else {
      var init, z := zs[..|zs| - 1], zs[|zs| - 1];
      SubsequenceTail(xs, ys, init);
      hide IsSubsequence;
      SubsequenceTakes(xs + init, ys + init, z);
      assert init + [z] == zs;
      assert (xs + init) + [z] == xs + zs && (ys + init) + [z] == ys + zs;
    }
  }

  // What one offer does to a channel's buffer.
  function Offered<T>(buffer: seq<T>, capacity: nat, x: T): seq<T> {
    if |buffer| < capacity then buffer + [x] else buffer
  }

  /** Offers a message to each channel of a list in turn. */
  method OfferAll<T>(subs: seq<Channel<T>>, x: T)
    requires NoDuplicates(subs) && forall k :: 0 <= k < |subs| ==> subs[k].Open()
    modifies set ch | ch in subs
    ensures forall k :: 0 <= k < |subs| ==>
              subs[k].Open() && subs[k].offered == old(subs[k].offered) + [x]
                  && subs[k].received == old(subs[k].received)
              && subs[k].buffer == Offered(old(subs[k].buffer), subs[k].capacity, x)
  {
    hide IsSubsequence;
    var i := 0;
    while i < |subs|
      invariant 0 <= i <= |subs|
      invariant forall k :: i <= k < |subs| ==>
                  subs[k].Open() && subs[k].offered == old(subs[k].offered) && subs[k].received == old(subs[k].received)
                  && subs[k].buffer == old(subs[k].buffer)
      invariant forall k :: 0 <= k < i ==>
                  subs[k].Open() && subs[k].offered == old(subs[k].offered) + [x]
                      && subs[k].received == old(subs[k].received)
                  && subs[k].buffer == Offered(old(subs[k].buffer), subs[k].capacity, x)
    {
      hide IsSubsequence, Offered;
      subs[i].Offer(x);
      i := i + 1;
    }
  }

  type Registry = map<string, seq<Channel<string>>>

  // Each channel is registered once, and no list is empty.
  ghost predicate Registered(subs: Registry) {
    && (forall id :: id in subs ==> subs[id] != [] && NoDuplicates(subs[id]))
    && forall id, id', ch :: id in subs && id' in subs && ch in subs[id] && ch in subs[id'] ==> id == id'
  }

  ghost function ChannelsOf(subs: Registry): set<Channel<string>> {
    set id, ch | id in subs && ch in subs[id] :: ch
  }

  function SubsOf(subs: Registry, id: string): seq<Channel<string>> {
    if id in subs then subs[id] else []
  }

  lemma AddChannel(subs: Registry, id: string, ch: Channel<string>)
    requires Registered(subs) && ch !in ChannelsOf(subs)
    ensures Registered(subs[id := SubsOf(subs, id) + [ch]])
    ensures ChannelsOf(subs[id := SubsOf(subs, id) + [ch]]) == ChannelsOf(subs) + {ch}
  {
    var subs' := subs[id := SubsOf(subs, id) + [ch]];
    forall k, i | k in subs && 0 <= i < |subs[k]| ensures subs[k][i] != ch {
      InChannels(subs, k, i);
    }
    forall c ensures c in ChannelsOf(subs') <==> c in ChannelsOf(subs) + {ch} {
      if c in ChannelsOf(subs) {
        var k :| k in subs && c in subs[k];
        assert k in subs' && c in subs'[k];
      }
      if c == ch {
        assert id in subs' && c in subs'[id];
      }
    }
  }

  function Removed(subs: Registry, id: string, i: nat): Registry
    requires id in subs && i < |subs[id]|
  {
    if Without(subs[id], i) == [] then subs - {id} else subs[id := Without(subs[id], i)]
  }

  lemma RemoveChannel(subs: Registry, id: string, i: nat)
    requires Registered(subs) && id in subs && i < |subs[id]|
    ensures Registered(Removed(subs, id, i))
    ensures ChannelsOf(Removed(subs, id, i)) == ChannelsOf(subs) - {subs[id][i]}
  {
    var subs', ch := Removed(subs, id, i), subs[id][i];
    WithoutOne(subs[id], i);
    hide IsSubsequence, NoDuplicates, Without;
    forall c ensures c in ChannelsOf(subs') <==> c in ChannelsOf(subs) - {ch} {
      if c in ChannelsOf(subs) && c != ch {
        var k :| k in subs && c in subs[k];
        assert k in subs' && c in subs'[k];
      }
    }
  }

  type Log = map<string, seq<string>>

  function LogOf(log: Log, id: string): seq<string> {
    if id in log then log[id] else []
  }

  function Appended(log: Log, id: string, message: string): Log {
    log[id := LogOf(log, id) + [message]]
  }

  // What a subscriber was offered is its log from where it came in.
  ghost predicate Follows<T>(ch: Channel<T>, since: map<Channel<T>, nat>, log: seq<T>)
    reads ch
  {
    ch in since && since[ch] <= |log| && ch.offered == log[since[ch]..]
  }

  ghost predicate AllOpen(chs: set<Channel<string>>)
    reads chs
  {
    forall ch :: ch in chs ==> ch.Open()
  }

  // The firehose's channels are open and follow the log of all broadcasts.
  ghost predicate TaggedOk(subs: seq<Channel<Firehose>>, since: map<Channel<Firehose>, nat>, log: seq<Firehose>)
    reads subs
  {
    forall ch :: ch in subs ==> ch.Open() && Follows(ch, since, log)
  }

  ghost predicate AllFollow(subs: Registry, since: map<Channel<string>, nat>, log: Log)
    reads ChannelsOf(subs)
  {
    forall id, i :: id in subs && 0 <= i < |subs[id]| ==>
        (InChannels(subs, id, i); Follows(subs[id][i], since, LogOf(log, id)))
  }

  lemma RemovedFollow(subs: Registry, since: map<Channel<string>, nat>, log: Log, id: string, i: nat)
    requires AllFollow(subs, since, log) && id in subs && i < |subs[id]|
    ensures AllFollow(Removed(subs, id, i), since, log)
  {
    var subs' := Removed(subs, id, i);
    forall k, j | k in subs' && 0 <= j < |subs'[k]| ensures Follows(subs'[k][j], since, LogOf(log, k)) {
      assert subs'[k][j] == subs[k][if k == id && j >= i then j + 1 else j];
    }
  }

  lemma AddedFollow(subs: Registry, since: map<Channel<string>, nat>, log: Log, id: string, ch: Channel<string>)
    requires AllFollow(subs, since, log) && ch !in ChannelsOf(subs) && ch.offered == []
    ensures AllFollow(subs[id := SubsOf(subs, id) + [ch]], since[ch := |LogOf(log, id)|], log)
  {
    var subs', since' := subs[id := SubsOf(subs, id) + [ch]], since[ch := |LogOf(log, id)|];
    forall k, j | k in subs' && 0 <= j < |subs'[k]| ensures Follows(subs'[k][j], since', LogOf(log, k)) {
      if subs'[k][j] != ch {
        assert subs'[k][j] == subs[k][j];
        InChannels(subs, k, j);
      } else if k != id || j < |SubsOf(subs, id)| {
        InChannels(subs, k, j);
      }
      hide ChannelsOf;
    }
  }

  // The repository's subscribers have been offered one line more, and nobody else.
  lemma LineFollowed(subs: Registry, since: map<Channel<string>, nat>, log: Log, id: string, message: string)
    requires forall k, i :: k in subs && k != id && 0 <= i < |subs[k]| ==> Follows(subs[k][i], since, LogOf(log, k))
    requires forall i :: 0 <= i < |SubsOf(subs, id)| ==> Follows(SubsOf(subs, id)[i], since, LogOf(log, id) + [message])
    ensures AllFollow(subs, since, Appended(log, id, message))
  {
    forall k, i | k in subs && 0 <= i < |subs[k]|
        ensures Follows(subs[k][i], since, LogOf(Appended(log, id, message), k)) {
      if k == id {
        assert Follows(SubsOf(subs, id)[i], since, LogOf(log, id) + [message]);
      }
    }
  }

  lemma SuffixGrows<T>(log: seq<T>, k: nat, x: T)
    requires k <= |log|
    ensures (log + [x])[k..] == log[k..] + [x]
  {
  }

  class Hub {
    var subscribers: Registry
    var globalSubs: seq<Channel<Firehose>>
    ghost var log: Log                              // every broadcast, by repository
    ghost var allLog: seq<Firehose>                 // and all of them
    ghost var since: map<Channel<string>, nat>      // where in its repository's log a subscriber came in
    ghost var allSince: map<Channel<Firehose>, nat>

    constructor ()
      ensures Valid() && subscribers == map[] && globalSubs == [] && log == map[] && allLog == []
    {
      subscribers, globalSubs := map[], [];
      log, allLog, since, allSince := map[], [], map[], map[];
    }

    /** Every registered channel is open, registered once, and has been offered exactly the
        broadcasts of its repository since it subscribed (of all, for the firehose). */
    ghost predicate Valid()
      reads this, ChannelsOf(subscribers), globalSubs
    {
      && Registered(subscribers) && AllOpen(ChannelsOf(subscribers)) && AllFollow(subscribers, since, log)
      && NoDuplicates(globalSubs) && TaggedOk(globalSubs, allSince, allLog)
    }

    method Subscribe(id: string) returns (ch: Channel<string>)
      requires Valid()
      modifies this`subscribers, this`since
      ensures Valid() && fresh(ch) && ch.capacity == 100 && ch.offered == ch.received == []
      ensures since == old(since)[ch := |LogOf(log, id)|]
      ensures subscribers == old(subscribers)[id := SubsOf(old(subscribers), id) + [ch]]
    {
      ch := new Channel(100);
      Register(id, ch);
    }

    // Files a new channel under a repository, which it follows from here on.
    method Register(id: string, ch: Channel<string>)
      requires Valid() && ch !in ChannelsOf(subscribers) && ch.Open() && ch.offered == []
      modifies this`subscribers, this`since
      ensures Valid() && since == old(since)[ch := |LogOf(log, id)|]
      ensures subscribers == old(subscribers)[id := SubsOf(old(subscribers), id) + [ch]]
    {
      AddChannel(subscribers, id, ch);
      AddedFollow(subscribers, since, log, id, ch);
      hide Registered, IsSubsequence, NoDuplicates, AllFollow, SubsOf, ChannelsOf;
      subscribers := subscribers[id := SubsOf(subscribers, id) + [ch]];
      since := since[ch := |LogOf(log, id)|];
    }

    /** Removes one subscription and closes its channel; an unknown channel is left alone. */
    method Unsubscribe(id: string, ch: Channel<string>)
      requires Valid()
      modifies this`subscribers, ch`closed
      ensures Valid()
      ensures ch !in SubsOf(old(subscribers), id) ==> subscribers == old(subscribers) && ch.closed == old(ch.closed)
      ensures ch in SubsOf(old(subscribers), id) ==>
                ch.closed && ch !in ChannelsOf(subscribers)
                && exists i :: 0 <= i < |old(subscribers)[id]| && old(subscribers)[id][i] == ch
                    && subscribers == Removed(old(subscribers), id, i)
    {
      hide Registered, IsSubsequence, NoDuplicates, Removed, AllFollow;
      var subs := SubsOf(subscribers, id);
      var i := 0;
      while i < |subs|
        invariant 0 <= i <= |subs| && subscribers == old(subscribers)
        invariant forall k :: 0 <= k < i ==> subs[k] != ch
        invariant ch.closed == old(ch.closed) && Valid()
      {
        hide Registered, IsSubsequence, NoDuplicates, Removed, AllFollow;
        if subs[i] == ch {
          RemoveChannel(subscribers, id, i);
          RemovedFollow(subscribers, since, log, id, i);
          InChannels(subscribers, id, i);
          Drop(id, i);
          assert ch.Open();
          ch.Close();
          return;
        }
        i := i + 1;
      }
    }

    // Takes element i of a list out, and the list with its last element.
    method Drop(id: string, i: nat)
      requires id in subscribers && i < |subscribers[id]|
      modifies this`subscribers
      ensures subscribers == Removed(old(subscribers), id, i)
    {
      var subs := Without(subscribers[id], i);
      if |subs| == 0 {
        subscribers := subscribers - {id};
      } else {
        subscribers := subscribers[id := subs];
      }
    }

    method SubscribeAll() returns (ch: Channel<Firehose>)
      requires Valid()
      modifies this`globalSubs, this`allSince
      ensures Valid() && fresh(ch) && ch.capacity == 200 && ch.offered == ch.received == []
      ensures allSince == old(allSince)[ch := |allLog|]
      ensures globalSubs == old(globalSubs) + [ch]
    {
      hide Registered, IsSubsequence;
      ch := new Channel(200);
      globalSubs := globalSubs + [ch];
      allSince := allSince[ch := |allLog|];
    }

    method UnsubscribeAll(ch: Channel<Firehose>)
      requires Valid()
      modifies this`globalSubs, ch`closed
      ensures Valid()
      ensures ch !in old(globalSubs) ==> globalSubs == old(globalSubs) && ch.closed == old(ch.closed)
      ensures ch in old(globalSubs) ==>
                ch.closed && ch !in globalSubs
                && exists i :: 0 <= i < |old(globalSubs)| && old(globalSubs)[i] == ch
                    && globalSubs == Without(old(globalSubs), i)
    {
      hide Registered, IsSubsequence;
      var i := 0;
      while i < |globalSubs|
        invariant 0 <= i <= |globalSubs| && globalSubs == old(globalSubs)
        invariant forall k :: 0 <= k < i ==> globalSubs[k] != ch
        invariant ch.closed == old(ch.closed) && Valid()
      {
        if globalSubs[i] == ch {
          WithoutOne(globalSubs, i);
          assert ch.Open();
          globalSubs := Without(globalSubs, i);
          ch.Close();
          return;
        }
        i := i + 1;
      }
    }

    /** One progress line: logged once, offered to exactly the repository's subscribers and,
        tagged, to the firehose; nobody blocks and nobody else is touched. */
    method Broadcast(id: string, name: string, message: string)
      requires Valid()
      modifies this`log, this`allLog, ChannelsOf(subscribers), globalSubs
      ensures Valid() && log == Appended(old(log), id, message) && allLog == old(allLog) + [Firehose(id, name, message)]
      ensures forall ch :: ch in ChannelsOf(subscribers) && ch !in SubsOf(subscribers, id) ==>
                ch.offered == old(ch.offered) && ch.received == old(ch.received) && ch.buffer == old(ch.buffer)
      ensures forall ch :: ch in SubsOf(subscribers, id) ==>
                ch.offered == old(ch.offered) + [message] && ch.received == old(ch.received)
                && ch.buffer == Offered(old(ch.buffer), ch.capacity, message)
      ensures forall ch :: ch in globalSubs ==>
                ch.offered == old(ch.offered) + [Firehose(id, name, message)] && ch.received == old(ch.received)
                && ch.buffer == Offered(old(ch.buffer), ch.capacity, Firehose(id, name, message))
    {
      hide Registered, AllOpen, TaggedOk, AllFollow, NoDuplicates, Appended, Offered;
      OfferLine(id, message);
      OfferTagged(Firehose(id, name, message));
    }

    method OfferLine(id: string, message: string)
      requires Valid()
      modifies this`log, ChannelsOf(subscribers)
      ensures Valid() && log == Appended(old(log), id, message)
      ensures forall ch :: ch in ChannelsOf(subscribers) && ch !in SubsOf(subscribers, id) ==>
                ch.offered == old(ch.offered) && ch.received == old(ch.received) && ch.buffer == old(ch.buffer)
      ensures forall ch :: ch in SubsOf(subscribers, id) ==>
                ch.offered == old(ch.offered) + [message] && ch.received == old(ch.received)
                && ch.buffer == Offered(old(ch.buffer), ch.capacity, message)
    {
      hide Registered, AllOpen, TaggedOk, AllFollow, NoDuplicates, Appended, Offered, Follows, LogOf;
      SendLine(id, message);
      LogLine(id, message);
    }

    method OfferTagged(entry: Firehose)
      requires Valid()
      modifies this`allLog, globalSubs
      ensures Valid() && allLog == old(allLog) + [entry]
      ensures forall ch :: ch in globalSubs ==>
                ch.offered == old(ch.offered) + [entry] && ch.received == old(ch.received)
                && ch.buffer == Offered(old(ch.buffer), ch.capacity, entry)
    {
      hide Registered, AllOpen, TaggedOk, AllFollow, NoDuplicates, Offered, Follows;
      SendTagged(entry);
      LogTagged(entry);
    }

    // The line goes into the log the repository's subscribers were ahead of.
    ghost method LogLine(id: string, message: string)
      requires Registered(subscribers) && AllOpen(ChannelsOf(subscribers))
      requires NoDuplicates(globalSubs) && TaggedOk(globalSubs, allSince, allLog)
      requires forall k, i :: k in subscribers && k != id && 0 <= i < |subscribers[k]| ==>
                Follows(subscribers[k][i], since, LogOf(log, k))
      requires forall i :: 0 <= i < |SubsOf(subscribers, id)| ==>
                 Follows(SubsOf(subscribers, id)[i], since, LogOf(log, id) + [message])
      modifies this`log
      ensures Valid() && log == Appended(old(log), id, message)
    {
      LineFollowed(subscribers, since, log, id, message);
      hide AllFollow, AllOpen, TaggedOk, LogOf, Appended, SubsOf, Registered, NoDuplicates, Follows;
      log := Appended(log, id, message);
    }

    // The sends alone: the repository's subscribers are one line ahead of the log.
    method SendLine(id: string, message: string)
      requires Valid()
      modifies ChannelsOf(subscribers)
      ensures AllOpen(ChannelsOf(subscribers)) && TaggedOk(globalSubs, allSince, allLog)
      ensures forall k, i :: k in subscribers && k != id && 0 <= i < |subscribers[k]| ==>
                Follows(subscribers[k][i], since, LogOf(log, k))
      ensures forall i :: 0 <= i < |SubsOf(subscribers, id)| ==>
                Follows(SubsOf(subscribers, id)[i], since, LogOf(log, id) + [message])
      ensures forall ch :: ch in ChannelsOf(subscribers) && ch !in SubsOf(subscribers, id) ==>
                ch.offered == old(ch.offered) && ch.received == old(ch.received) && ch.buffer == old(ch.buffer)
      ensures forall ch :: ch in SubsOf(subscribers, id) ==>
                ch.offered == old(ch.offered) + [message] && ch.received == old(ch.received)
                && ch.buffer == Offered(old(ch.buffer), ch.capacity, message)
    {
      var subs := SubsOf(subscribers, id);
      assert NoDuplicates(subs);
      forall k | 0 <= k < |subs| ensures subs[k] in ChannelsOf(subscribers) {
        InChannels(subscribers, id, k);
      }
      ghost var more := LogOf(log, id) + [message];
      forall k | 0 <= k < |subs| ensures subs[k] in since && since[subs[k]] <= |more|
          && more[since[subs[k]]..] == subs[k].offered + [message] {
        assert Follows(subs[k], since, LogOf(log, id));
        SuffixGrows(LogOf(log, id), since[subs[k]], message);
      }
      OnlyHere(subscribers, id);
      hide Registered, IsSubsequence, NoDuplicates, Offered, LogOf;
      OfferAll(subs, message);
    }

    // The tagged copies, to every subscriber of the firehose.
    method SendTagged(entry: Firehose)
      requires Valid()
      modifies globalSubs
      ensures AllOpen(ChannelsOf(subscribers)) && AllFollow(subscribers, since, log)
      ensures TaggedOk(globalSubs, allSince, allLog + [entry])
      ensures forall ch :: ch in globalSubs ==>
                ch.offered == old(ch.offered) + [entry] && ch.received == old(ch.received)
                && ch.buffer == Offered(old(ch.buffer), ch.capacity, entry)
    {
      forall ch | ch in globalSubs ensures allSince[ch] <= |allLog|
          && (allLog + [entry])[allSince[ch]..] == ch.offered + [entry] {
        assert Follows(ch, allSince, allLog);
        SuffixGrows(allLog, allSince[ch], entry);
      }
      hide Registered, IsSubsequence, NoDuplicates, Offered, AllFollow, AllOpen;
      if |globalSubs| > 0 {
        OfferAll(globalSubs, entry);
      }
    }

    ghost method LogTagged(entry: Firehose)
      requires Registered(subscribers) && AllOpen(ChannelsOf(subscribers)) && AllFollow(subscribers, since, log)
      requires NoDuplicates(globalSubs) && TaggedOk(globalSubs, allSince, allLog + [entry])
      modifies this`allLog
      ensures Valid() && allLog == old(allLog) + [entry]
    {
      hide AllFollow, AllOpen, TaggedOk, Registered, NoDuplicates;
      allLog := allLog + [entry];
    }

    /** A subscriber takes its oldest message, which disturbs nobody. */
    method Take(id: string, ch: Channel<string>) returns (x: string)
      requires Valid() && ch in SubsOf(subscribers, id) && ch.buffer != []
      modifies ch`buffer, ch`received
      ensures Valid() && old(ch.buffer) == [x] + ch.buffer && ch.received == old(ch.received) + [x]
    {
      var i :| 0 <= i < |subscribers[id]| && subscribers[id][i] == ch;
      InChannels(subscribers, id, i);
      hide Registered, IsSubsequence, NoDuplicates, TaggedOk;
      x := ch.Receive();
    }
  }

  // A channel of one list is in no other.
  lemma OnlyHere(subs: Registry, id: string)
    requires Registered(subs)
    ensures forall id', i :: id' in subs && id' != id && 0 <= i < |subs[id']| ==> subs[id'][i] !in SubsOf(subs, id)
  {
  }

  lemma InChannels(subs: Registry, id: string, i: nat)
    requires id in subs && i < |subs[id]|
    ensures subs[id][i] in ChannelsOf(subs)
  {
    assert id in subs && subs[id][i] in subs[id];
  }

  /** What a registered subscriber has received, and what still waits for it, is an
      in-order selection of its repository's broadcasts since it subscribed. */
  lemma DeliveryIsInOrder(hub: Hub, id: string, ch: Channel<string>) returns (at: seq<nat>)
    requires hub.Valid() && ch in SubsOf(hub.subscribers, id)
    ensures ch in hub.since && hub.since[ch] <= |LogOf(hub.log, id)|
    ensures Chooses(at, ch.received + ch.buffer, LogOf(hub.log, id)[hub.since[ch]..]) && |ch.buffer| <= ch.capacity
    ensures forall i, j :: 0 <= i < j < |at| ==> at[i] < at[j]
  {
    var i :| 0 <= i < |hub.subscribers[id]| && hub.subscribers[id][i] == ch;
    InChannels(hub.subscribers, id, i);
    assert ch.Open() && Follows(ch, hub.since, LogOf(hub.log, id));
    at := SubsequenceIsChoice(ch.received + ch.buffer, ch.offered);
  }

  /** And of the firehose: of every repository's broadcasts since it subscribed. */
  lemma FirehoseIsInOrder(hub: Hub, ch: Channel<Firehose>) returns (at: seq<nat>)
    requires hub.Valid() && ch in hub.globalSubs
    ensures ch in hub.allSince && hub.allSince[ch] <= |hub.allLog|
    ensures Chooses(at, ch.received + ch.buffer, hub.allLog[hub.allSince[ch]..]) && |ch.buffer| <= ch.capacity
    ensures forall i, j :: 0 <= i < j < |at| ==> at[i] < at[j]
  {
    assert ch.Open() && Follows(ch, hub.allSince, hub.allLog);
    at := SubsequenceIsChoice(ch.received + ch.buffer, ch.offered);
  }
}

// The loop of the master server that pings its game servers and drops those that do not answer
// (master-server/masterserver.cpp, masterserver.h).
module Pings {

  const NUMBER_OF_MISSED_PINGS_TO_DROP: nat := 4
  const KEEP_ALIVE_PING_FREQUENCY: nat := 20000
  const UINT: nat := 0x1_0000_0000       // an unsigned int is below this

  datatype GameServer = GameServer(id: nat, failedPingResponses: nat, nextPingTime: nat)

  datatype Option<T> = None | Some(value: T)

  predicate IsDue(s: GameServer, time: nat) {
    time >= s.nextPingTime
  }

  // What one visit of the loop makes of a server
  function VisitOne(s: GameServer, time: nat): Option<GameServer> {
    if !IsDue(s, time) then Some(s)
    else if s.failedPingResponses >= NUMBER_OF_MISSED_PINGS_TO_DROP then None
    else Some(GameServer(s.id, s.failedPingResponses + 1, (time + KEEP_ALIVE_PING_FREQUENCY) % UINT))
  }

  function Visited(servers: seq<GameServer>, time: nat): seq<GameServer> {
    if servers == [] then []
    else
      var last := VisitOne(servers[|servers| - 1], time);
      Visited(servers[..|servers| - 1], time) + (if last.Some? then [last.value] else [])
  }

  function Without(q: seq<GameServer>, i: nat): seq<GameServer>
    requires i < |q|
  {
    q[..i] + q[i + 1..]
  }

  function Answered(s: GameServer): GameServer {
    s.(failedPingResponses := 0)
  }

  class MasterServer {
    var serverList: seq<GameServer>

    // The second half of run
    method Visit(time: nat)
      modifies this
      ensures serverList == Visited(old(serverList), time)
    {
      ghost var all, k := serverList, 0;
      var serverIndex := 0;
      assert all[0..] == all && all[..0] == [];
      while serverIndex < |serverList|
        invariant 0 <= k <= |all| && serverIndex == |Visited(all[..k], time)|
        invariant serverList == Visited(all[..k], time) + all[k..]
        decreases |all| - k
      {
        hide Visited, VisitOne, Without;
        ghost var before := serverList;
        assert before[serverIndex] == all[k];
        serverIndex := VisitAt(serverIndex, time);
        VisitedNext(all, k, time, before, serverList);
        k := k + 1;
      }
      assert all[..k] == all;
    }

    // The body of its loop
    method VisitAt(serverIndex: nat, time: nat) returns (next: nat)
      requires serverIndex < |serverList|
      modifies this
      ensures match VisitOne(old(serverList)[serverIndex], time)
              case None => next == serverIndex && serverList == Without(old(serverList), serverIndex)
              case Some(g) => next == serverIndex + 1 && serverList == old(serverList)[serverIndex := g]
    {
      var s := serverList[serverIndex];
      if time >= s.nextPingTime {
        if s.failedPingResponses >= NUMBER_OF_MISSED_PINGS_TO_DROP {
          serverList := Without(serverList, serverIndex);
          return serverIndex;
        }
        var nextPing := (time + KEEP_ALIVE_PING_FREQUENCY) % UINT;
        serverList := serverList[serverIndex := GameServer(s.id, s.failedPingResponses + 1, nextPing)];
      }
      return serverIndex + 1;
    }

    // HandlePong
    method HandlePong(id: nat)
      modifies this
      ensures |serverList| == |old(serverList)|
      ensures forall i :: 0 <= i < |serverList| ==>
                serverList[i] == if old(serverList)[i].id == id &&
                  (forall j :: 0 <= j < i ==> old(serverList)[j].id != id)
                                 then Answered(old(serverList)[i]) else old(serverList)[i]
    {
      var i := 0;
      while i < |serverList|
        invariant 0 <= i <= |serverList| && serverList == old(serverList)
        invariant forall j :: 0 <= j < i ==> serverList[j].id != id
      {
        if serverList[i].id == id {
          serverList := serverList[i := serverList[i].(failedPingResponses := 0)];
          return;
        }
        i := i + 1;
      }
    }
  }

  lemma VisitedNext(all: seq<GameServer>, k: nat, time: nat, q: seq<GameServer>, q': seq<GameServer>)
    requires k < |all| && q == Visited(all[..k], time) + all[k..]
    requires var n := |Visited(all[..k], time)|;
             match VisitOne(all[k], time) case None => q' == Without(q, n) case Some(g) => q' == q[n := g]
    ensures q' == Visited(all[..k + 1], time) + all[k + 1..]
    ensures |Visited(all[..k + 1], time)| == |Visited(all[..k], time)| + (if VisitOne(all[k], time).Some? then 1 else 0)
  {
    assert all[..k + 1][..k] == all[..k];
  }

  // ---- one server, over a whole run ----

  datatype Event = Visit(time: nat) | Pong

  // A server through a run, with the times of the pings it has not answered; once dropped, it stays away.
  datatype Life = Life(server: Option<GameServer>, silent: seq<nat>)

  function Live(s: GameServer, run: seq<Event>): Life {
    if run == [] then Life(Some(s), [])
    else
      var before := Live(s, run[..|run| - 1]);
      match (before.server, run[|run| - 1])
      case (None, _) => before
      case (Some(g), Pong) => Life(Some(Answered(g)), [])
      case (Some(g), Visit(time)) =>
        Life(VisitOne(g, time), if IsDue(g, time) && VisitOne(g, time).Some? then before.silent + [time]
          else before.silent)
  }

  // The clock does not go back, and a ping leaves room for the next one.
  predicate Clocked(run: seq<Event>) {
    && (forall i, j :: 0 <= i < j < |run| && run[i].Visit? && run[j].Visit? ==> run[i].time <= run[j].time)
    && (forall i :: 0 <= i < |run| && run[i].Visit? ==> run[i].time + KEEP_ALIVE_PING_FREQUENCY < UINT)
  }

  predicate Spaced(q: seq<nat>) {
    forall i :: 0 <= i < |q| - 1 ==> q[i + 1] - q[i] >= KEEP_ALIVE_PING_FREQUENCY
  }

  // As long as it is in the list, a server has at most four unanswered pings, 20 seconds apart, and the next
  // one is due 20 seconds after the last.
  ghost predicate InTime(l: Life) {
    && Spaced(l.silent)
    && (l.server.Some? ==>
          && l.server.value.failedPingResponses == |l.silent| <= NUMBER_OF_MISSED_PINGS_TO_DROP
          && (l.silent != [] ==> l.server.value.nextPingTime == l.silent[|l.silent| - 1] + KEEP_ALIVE_PING_FREQUENCY))
  }

  lemma {:induction false} AlwaysInTime(s: GameServer, run: seq<Event>)
    requires s.failedPingResponses == 0 && Clocked(run)
    ensures InTime(Live(s, run))
    decreases |run|
  {
    if run != [] {
      var before := run[..|run| - 1];
      assert Clocked(before) by {
        assert forall i :: 0 <= i < |before| ==> before[i] == run[i];
      }
      AlwaysInTime(s, before);
      if Live(s, before).server.Some? {
        StepInTime(Live(s, before), run[|run| - 1]);
      }
    }
  }

  lemma StepInTime(l: Life, e: Event)
    requires InTime(l) && l.server.Some?
    requires e.Visit? ==> e.time + KEEP_ALIVE_PING_FREQUENCY < UINT
    ensures e.Visit? ==>
              var g := l.server.value;
              InTime(Life(VisitOne(g, e.time), if IsDue(g, e.time) && VisitOne(g, e.time).Some? then
                l.silent + [e.time] else l.silent))
  {
    if e.Visit? && IsDue(l.server.value, e.time) {
      var q := l.silent + [e.time];
      assert forall i :: 0 <= i < |q| - 1 ==> q[i] == l.silent[i];
    }
  }

  // Safety: the visit that drops a server comes after four unanswered pings, each at least 20 seconds after
  // the one before, and at least 80 seconds after the first.
  lemma DroppedForSilence(s: GameServer, run: seq<Event>, time: nat)
    requires s.failedPingResponses == 0 && Clocked(run + [Visit(time)])
    requires Live(s, run).server.Some? && Live(s, run + [Visit(time)]).server.None?
    ensures var q := Live(s, run).silent;
            |q| == 4 && Spaced(q) && time - q[3] >= KEEP_ALIVE_PING_FREQUENCY && time - q[0] >= 80000
  {
    var longer := run + [Visit(time)];
    assert longer[..|run|] == run;
    assert Clocked(run) by {
      assert forall i :: 0 <= i < |run| ==> run[i] == longer[i];
    }
    AlwaysInTime(s, run);
    hide Clocked;
    assert longer[|longer| - 1] == Visit(time);
    DropTimes(Live(s, run), time);
  }

  lemma DropTimes(l: Life, time: nat)
    requires InTime(l) && l.server.Some? && VisitOne(l.server.value, time).None?
    ensures var q := l.silent;
            |q| == 4 && Spaced(q) && time - q[3] >= KEEP_ALIVE_PING_FREQUENCY && time - q[0] >= 80000
  {
    var q := l.silent;
    assert q[1] - q[0] >= KEEP_ALIVE_PING_FREQUENCY && q[2] - q[1] >= KEEP_ALIVE_PING_FREQUENCY;
  }

  // How many of these visits found the server in the list and due
  function DueVisits(s: GameServer, times: seq<nat>): nat
    decreases |times|
  {
    if times == [] then 0
    else (if IsDue(s, times[0]) then 1 else 0) + match VisitOne(s, times[0])
                                                 case None => 0
                                                 case Some(g) => DueVisits(g, times[1..])
  }

  function AfterVisits(s: GameServer, times: seq<nat>): Option<GameServer>
    decreases |times|
  {
    if times == [] then Some(s) else match VisitOne(s, times[0])
                                     case None => None
                                     case Some(g) => AfterVisits(g, times[1..])
  }

  // Progress: a server that never answers is dropped on its fifth due visit, and not before.
  lemma {:induction false} DroppedOnFifth(s: GameServer, times: seq<nat>)
    requires s.failedPingResponses <= NUMBER_OF_MISSED_PINGS_TO_DROP
    ensures AfterVisits(s, times).None? <==> s.failedPingResponses + DueVisits(s, times) == 5
    ensures s.failedPingResponses + DueVisits(s, times) <= 5
    decreases |times|
  {
    if times != [] {
      match VisitOne(s, times[0])
      case None =>
      case Some(g) => DroppedOnFifth(g, times[1..]);
    }
  }

  // A visit changes a server exactly when its time has come: it is pinged, or after four pings dropped.
  lemma VisitedWhenDue(s: GameServer, time: nat)
    ensures VisitOne(s, time) != Some(s) <==> time >= s.nextPingTime
    ensures time >= s.nextPingTime && s.failedPingResponses < 4 ==>
              VisitOne(s, time).Some? && VisitOne(s, time).value.failedPingResponses == s.failedPingResponses + 1
    ensures time >= s.nextPingTime && s.failedPingResponses < 4 && time + 20000 < UINT ==>
              VisitOne(s, time).value.nextPingTime == time + 20000
    ensures VisitOne(s, time).None? <==> time >= s.nextPingTime && s.failedPingResponses >= 4
  {
  }

  // The times of n visits every 20 seconds
  function Every20Seconds(from: nat, n: nat): seq<nat> {
    seq(n, i => from + 20000 * i)
  }

  // A silent server that is visited whenever a ping is due survives four of these visits and is gone at the fifth.
  lemma GoneAtOnce(s: GameServer, n: nat)
    requires s.failedPingResponses == 0 && s.nextPingTime + 80000 < UINT
    ensures AfterVisits(s, Every20Seconds(s.nextPingTime, n)).None? <==> n >= 5
  {
    GoneFrom(s, s.nextPingTime, n);
  }

  lemma {:induction false} GoneFrom(s: GameServer, from: nat, n: nat)
    requires s.failedPingResponses <= 4 && from == s.nextPingTime && from + 20000 * (4 - s.failedPingResponses) < UINT
    ensures AfterVisits(s, Every20Seconds(from, n)).None? <==> s.failedPingResponses + n >= 5
    decreases n
  {
    var times := Every20Seconds(from, n);
    if n > 0 {
      assert times[0] == from && times[1..] == Every20Seconds(from + 20000, n - 1);
      VisitedWhenDue(s, from);
      if s.failedPingResponses < 4 {
        GoneFrom(VisitOne(s, from).value, from + 20000, n - 1);
      }
    }
  }

  // Visits at most gap apart
  predicate Within(times: seq<nat>, gap: nat) {
    forall i :: 0 <= i < |times| - 1 ==> times[i] <= times[i + 1] <= times[i] + gap
  }

  // Progress in time: visited at most gap apart, a silent server is gone when 80 seconds and five gaps have passed
  // since
  // its ping was due.
  lemma GoneInTime(s: GameServer, times: seq<nat>, gap: nat)
    requires s.failedPingResponses == 0 && times != [] && Within(times, gap) && times[0] <= s.nextPingTime + gap
    requires times[|times| - 1] >= s.nextPingTime + 80000 + 5 * gap && times[|times| - 1] + 20000 < UINT
    ensures AfterVisits(s, times).None?
  {
    SilentGone(s, times, gap);
  }

  lemma {:induction false} SilentGone(s: GameServer, times: seq<nat>, gap: nat)
    requires s.failedPingResponses <= 4 && times != [] && Within(times, gap) && times[0] <= s.nextPingTime + gap
    requires var last, left := times[|times| - 1], 4 - s.failedPingResponses;
             last >= s.nextPingTime + 20000 * left + gap * (left + 1) && last + 20000 < UINT
    ensures AfterVisits(s, times).None?
    decreases |times|
  {
    VisitedWhenDue(s, times[0]);
    var rest := times[1..];
    LastLeast(times, gap);
    if VisitOne(s, times[0]).Some? {
      var g := VisitOne(s, times[0]).value;
      assert rest != [];
      assert Within(rest, gap) by {
        assert forall i :: 0 <= i < |rest| ==> rest[i] == times[i + 1];
      }
      SilentGone(g, rest, gap);
    }
  }

  lemma {:induction false} LastLeast(times: seq<nat>, gap: nat)
    requires times != [] && Within(times, gap)
    ensures times[0] <= times[|times| - 1]
    decreases |times|
  {
    if |times| > 1 {
      var rest := times[1..];
      assert forall i :: 0 <= i < |rest| ==> rest[i] == times[i + 1];
      LastLeast(rest, gap);
    }
  }

  // A ping leaves room for the next one exactly when the sum does not wrap around.
  lemma SpacedExactly(s: GameServer, time: nat, later: nat)
    requires time < UINT && IsDue(s, time) && s.failedPingResponses < NUMBER_OF_MISSED_PINGS_TO_DROP
    ensures var g := VisitOne(s, time).value;
            (forall t: nat :: t < UINT && IsDue(g, t) ==> t - time >= KEEP_ALIVE_PING_FREQUENCY)
            <==> time + KEEP_ALIVE_PING_FREQUENCY < UINT
  {
    var g := VisitOne(s, time).value;
    if time + KEEP_ALIVE_PING_FREQUENCY >= UINT {
      assert IsDue(g, time);
    }
  }

  // In the last 20 seconds before the clock wraps around, a server can be dropped at once.
  lemma DroppedAtOnce() returns (s: GameServer, times: seq<nat>)
    ensures s.failedPingResponses == 0 && |times| == 5 && (forall i :: 0 <= i < 5 ==> times[i] == UINT - 1)
    ensures AfterVisits(s, times).None?
  {
    s := GameServer(0, 0, 0);
    var t := UINT - 1;
    times := [t, t, t, t, t];
    var next := (t + KEEP_ALIVE_PING_FREQUENCY) % UINT;
    var s1, s2, s3, s4 := GameServer(0, 1, next), GameServer(0, 2, next), GameServer(0, 3, next), GameServer(0, 4,
      next);
    assert times[1..] == [t, t, t, t] && [t, t, t, t][1..] == [t, t, t] && [t, t, t][1..] == [t, t] &&
      [t, t][1..] == [t];
    assert AfterVisits(s4, [t]).None?;
    assert AfterVisits(s3, [t, t]) == AfterVisits(s4, [t]);
    assert AfterVisits(s2, [t, t, t]) == AfterVisits(s3, [t, t]);
    assert AfterVisits(s1, [t, t, t, t]) == AfterVisits(s2, [t, t, t]);
  }
}

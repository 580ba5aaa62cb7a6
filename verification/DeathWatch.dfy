/** Domain-death detection: a sorted list of watchers is merged against a sorted, paged list of live
    domains. */
module DeathWatch {

  /** What the hypervisor reports of a domain. */
  datatype DomInfo = DomInfo(domid: nat, dying: bool, shutdown: bool, reason: nat)

  /** How many domains one query may return while more than one watcher is left. */
  const PAGE: nat := 200

  ghost predicate Ascending(live: seq<DomInfo>) {
    forall i, j :: 0 <= i < j < |live| ==> live[i].domid < live[j].domid
  }

  /** The live domains from a first domid on. */
  function From(live: seq<DomInfo>, first: nat): seq<DomInfo> {
    if live == [] || live[0].domid >= first then live else From(live[1..], first)
  }

  lemma {:induction false} FromIsSuffix(live: seq<DomInfo>, first: nat)
    ensures |From(live, first)| <= |live| && From(live, first) == live[|live| - |From(live, first)|..]
  {
    if live != [] && live[0].domid < first { FromIsSuffix(live[1..], first); }
  }

  lemma {:induction false} FromIs(live: seq<DomInfo>, first: nat)
    requires Ascending(live)
    ensures Ascending(From(live, first))
    ensures forall d :: d in From(live, first) <==> d in live && d.domid >= first
  {
    if live != [] && live[0].domid < first {
      assert Ascending(live[1..]);
      FromIs(live[1..], first);
      assert live == [live[0]] + live[1..];
    } else if live != [] {
      assert forall i :: 0 <= i < |live| ==> live[i].domid >= live[0].domid;
    }
  }

  /** A query: at most n live domains, starting with the given domid. */
  function Page(live: seq<DomInfo>, first: nat, n: nat): seq<DomInfo> {
    var rest := From(live, first);
    if |rest| <= n then rest else rest[..n]
  }

  /** A watched domain counts as dead if it is no longer listed, or listed as dying. */
  predicate IsDead(live: seq<DomInfo>, domid: nat) {
    forall d :: d in live && d.domid == domid ==> d.dying
  }

  predicate HasShutDown(live: seq<DomInfo>, domid: nat) {
    exists d :: d in live && d.domid == domid && d.shutdown
  }

  /** The pages of a search depend on the watched domids and the live domains from the first watched
      one on.  Below counts how many of them lie below a domid. */
  function Below(live: seq<DomInfo>, domid: nat): nat {
    if live == [] || live[0].domid >= domid then 0 else 1 + Below(live[1..], domid)
  }

  lemma {:induction false} BelowIs(live: seq<DomInfo>, domid: nat)
    requires Ascending(live)
    ensures Below(live, domid) <= |live|
    ensures forall k :: 0 <= k < |live| ==> (live[k].domid < domid <==> k < Below(live, domid))
  {
    if live != [] && live[0].domid < domid {
      assert Ascending(live[1..]);
      BelowIs(live[1..], domid);
      forall k | 0 <= k < |live| ensures live[k].domid < domid <==> k < Below(live, domid) {
        assert k > 0 ==> live[k] == live[1..][k - 1];
      }
    }
  }

  ghost predicate Sorted(ids: seq<nat>) {
    forall i, j :: 0 <= i < j < |ids| ==> ids[i] <= ids[j]
  }

  /** Whether more than one watcher is left once the page starting at position s is asked for: past the
      first page, only the watchers beyond that page's first domain are. */
  predicate SeveralLeft(ids: seq<nat>, live: seq<DomInfo>, s: nat)
    requires s < |live|
  {
    |ids| >= 2 && (s == 0 || ids[|ids| - 2] > live[s].domid)
  }

  /** The position of the last domain on the page that starts at position s. */
  function LastOnPage(ids: seq<nat>, live: seq<DomInfo>, s: nat): (last: nat)
    requires s < |live|
    ensures s <= last < |live|
  {
    var n := if SeveralLeft(ids, live, s) then PAGE else 1;
    if s + n <= |live| then s + n - 1 else |live| - 1
  }

  /** Whether a search that is about to ask for the page at position s reports everything, if the
      hypervisor answers that many more queries. */
  predicate Completes(ids: seq<nat>, live: seq<DomInfo>, s: nat, answers: nat)
    requires ids != [] && (live != [] ==> s < |live|)
    decreases answers
  {
    answers > 0 && (
      || live == []
      || live[LastOnPage(ids, live, s)].domid >= ids[|ids| - 1]
      || Completes(ids, live, LastOnPage(ids, live, s), answers - 1))
  }

  /** When the search ends.  Each page but the first repeats the last domain of the one before, so pages
      advance by PAGE - 1; one with a single entry repeats for ever.  The search ends if and only
      if there is a single watcher, or no live domain from the first watched one on, or there is
      a live domain at or beyond the highest watched one and, when it lies beyond the first page,
      at least two watchers are still left at the page on which it lies. */
  predicate Ends(ids: seq<nat>, live: seq<DomInfo>)
    requires ids != []
  {
    var highest := ids[|ids| - 1];
    var q := Below(live, highest);
    || |ids| == 1
    || live == []
    || (q < |live| && (q < PAGE || (BelowFits(live, highest); ids[|ids| - 2] > live[FinalPage(q) * (PAGE - 1)].domid)))
  }

  /** The number of the page on which the highest watched domain is passed. */
  function FinalPage(q: nat): nat {
    if q == 0 then 0 else (q - 1) / (PAGE - 1)
  }

  lemma BelowFits(live: seq<DomInfo>, domid: nat)
    ensures Below(live, domid) <= |live|
    ensures FinalPage(Below(live, domid)) * (PAGE - 1) <= Below(live, domid)
  {
    if live != [] && live[0].domid < domid {
      BelowFits(live[1..], domid);
    }
  }

  lemma FinalPageIs(q: nat, j: nat)
    ensures q <= (j + 1) * (PAGE - 1) <==> FinalPage(q) <= j
    ensures q > 0 ==> FinalPage(q) * (PAGE - 1) < q <= (FinalPage(q) + 1) * (PAGE - 1)
  {
  }

  /** A page that starts with the last domain of its predecessor and ends there too repeats for ever. */
  lemma {:induction false} StuckForEver(ids: seq<nat>, live: seq<DomInfo>, s: nat, answers: nat)
    requires ids != [] && s < |live| && LastOnPage(ids, live, s) == s
    requires live[s].domid < ids[|ids| - 1]
    ensures !Completes(ids, live, s, answers)
    decreases answers
  {
    if answers > 0 {
      StuckForEver(ids, live, s, answers - 1);
    }
  }

  /** The search, seen from its j-th page. */
  lemma {:induction false} CompletesFromPage(ids: seq<nat>, live: seq<DomInfo>, j: nat, answers: nat)
    requires |ids| >= 2 && Sorted(ids) && Ascending(live) && live != []
    requires j * (PAGE - 1) < |live|
    requires j > 0 ==> live[j * (PAGE - 1)].domid < ids[|ids| - 1]
    ensures Completes(ids, live, j * (PAGE - 1), answers) <==>
      Ends(ids, live) && answers > FinalPage(Below(live, ids[|ids| - 1])) - j
    decreases answers
  {
    var highest := ids[|ids| - 1];
    var q := Below(live, highest);
    var s := j * (PAGE - 1);
    BelowIs(live, highest);
    FinalPageIs(q, j);
    var last := LastOnPage(ids, live, s);
    var final := FinalPage(q) * (PAGE - 1);
    if j > 0 && !SeveralLeft(ids, live, s) {
      StuckForEver(ids, live, s, answers);
      assert s <= final;
      if q < |live| {
        assert live[s].domid <= live[final].domid;
        assert !Ends(ids, live);
      }
    } else if live[last].domid < highest {
      if last == s {
        StuckForEver(ids, live, s, answers);
      } else if last < s + PAGE - 1 {
        assert LastOnPage(ids, live, last) == last;
        if answers > 0 { StuckForEver(ids, live, last, answers - 1); }
      } else if answers > 0 {
        assert last == (j + 1) * (PAGE - 1);
        CompletesFromPage(ids, live, j + 1, answers - 1);
      }
    } else {
      assert q <= last <= (j + 1) * (PAGE - 1);
      if j > 0 { assert s < q; }
    }
  }

  /** The death search reports everything if and only if it ends and the hypervisor answers every query
      up to the page on which the highest watched domain is passed. */
  lemma SearchCompletesIff(ids: seq<nat>, live: seq<DomInfo>, answers: nat)
    requires ids != [] && Sorted(ids) && Ascending(live)
    requires forall d :: d in live ==> d.domid >= ids[0]
    ensures Completes(ids, live, 0, answers) <==>
      Ends(ids, live) && answers > (if live == [] then 0 else FinalPage(Below(live, ids[|ids| - 1])))
  {
    if live != [] {
      if |ids| == 1 {
        assert live[0] in live;
      } else {
        CompletesFromPage(ids, live, 0, answers);
      }
    }
  }

  /** How many queries it takes, in plain numbers: a search for several watchers that ends reports everything with n
      answers, and not with fewer, if and only if at most 199 n of the live domains lie below the highest watched
      one. */
  lemma QueriesNeeded(ids: seq<nat>, live: seq<DomInfo>, answers: nat)
    requires |ids| >= 2 && Sorted(ids) && Ascending(live) && live != [] && Ends(ids, live)
    requires forall d :: d in live ==> d.domid >= ids[0]
    ensures Completes(ids, live, 0, answers) <==> answers > 0 && Below(live, ids[|ids| - 1]) <= 199 * answers
  {
    SearchCompletesIff(ids, live, answers);
    if answers > 0 { FinalPageIs(Below(live, ids[|ids| - 1]), answers - 1); }
  }

  /** One query suffices exactly if nothing is alive, or one of the first 200 live domains (of the first one, for a
      single watcher) reaches the highest watched one. */
  lemma OneQuerySufficesIff(ids: seq<nat>, live: seq<DomInfo>)
    requires ids != [] && Ascending(live)
    ensures Completes(ids, live, 0, 1) <==>
      live == [] ||
      exists k: nat :: k < |live| && k < (if |ids| >= 2 then 200 else 1) && live[k].domid >= ids[|ids| - 1]
  {
    if live != [] {
      var last := LastOnPage(ids, live, 0);
      forall k: nat | k < |live| && k < (if |ids| >= 2 then 200 else 1) ensures live[k].domid <= live[last].domid {
        assert k <= last;
      }
    }
  }

  /** The failing case: with watchers for domains 5 and 10 and only domain 5 alive, every page after the
      first is the same, however long the hypervisor goes on answering. */
  lemma SearchCanRepeatForEver(answers: nat)
    ensures !Completes([5, 10], [DomInfo(5, false, false, 0)], 0, answers)
  {
    SearchCompletesIff([5, 10], [DomInfo(5, false, false, 0)], answers);
  }

  // ------------------------------------------------------------------ what one watcher gets

  class Watcher {
    const domid: nat
    var shutdownReported: bool
    var deathReported: bool

    constructor (domid: nat)
      ensures this.domid == domid && !shutdownReported && !deathReported
    {
      this.domid, shutdownReported, deathReported := domid, false, false;
    }
  }

  datatype What = DomainDeath | DomainShutdown(reason: nat)

  /** An event names the domain; the watcher is kept with it to tell watchers of one domain apart. */
  datatype Event = Event(watcher: Watcher, what: What)

  function Ids(ws: seq<Watcher>): (ids: seq<nat>)
    ensures |ids| == |ws|
    ensures forall i :: 0 <= i < |ws| ==> ids[i] == ws[i].domid
  {
    seq(|ws|, i requires 0 <= i < |ws| => ws[i].domid)
  }

  function ReasonOf(live: seq<DomInfo>, domid: nat): nat {
    if live == [] then 0 else if live[0].domid == domid then live[0].reason else ReasonOf(live[1..], domid)
  }

  /** What a completed search reports for one watcher, given who has been told of a shutdown before. */
  function EventsFor(w: Watcher, told: set<Watcher>, live: seq<DomInfo>): seq<Event> {
    if IsDead(live, w.domid) then [Event(w, DomainDeath)]
    else if HasShutDown(live, w.domid) && w !in told then
      [Event(w, DomainShutdown(ReasonOf(live, w.domid)))]
    else []
  }

  function Events(ws: seq<Watcher>, told: set<Watcher>, live: seq<DomInfo>): seq<Event> {
    if ws == [] then []
    else Events(ws[..|ws| - 1], told, live) + EventsFor(ws[|ws| - 1], told, live)
  }

  function Survivors(ws: seq<Watcher>, live: seq<DomInfo>): (r: seq<Watcher>)
    ensures |r| <= |ws|
  {
    if ws == [] then []
    else Survivors(ws[..|ws| - 1], live) + if IsDead(live, ws[|ws| - 1].domid) then [] else [ws[|ws| - 1]]
  }

  /** The watchers of dead domains, the last one first. */
  function DeadLastFirst(ws: seq<Watcher>, live: seq<DomInfo>): (r: seq<Watcher>) {
    if ws == [] then []
    else (if IsDead(live, ws[|ws| - 1].domid) then [ws[|ws| - 1]] else []) + DeadLastFirst(ws[..|ws| - 1], live)
  }

  lemma NextWatcher(ws: seq<Watcher>, told: set<Watcher>, live: seq<DomInfo>, p: nat)
    requires p < |ws|
    ensures Events(ws[..p + 1], told, live) == Events(ws[..p], told, live) + EventsFor(ws[p], told, live)
    ensures Survivors(ws[..p + 1], live)
         == Survivors(ws[..p], live) + if IsDead(live, ws[p].domid) then [] else [ws[p]]
    ensures DeadLastFirst(ws[..p + 1], live)
         == (if IsDead(live, ws[p].domid) then [ws[p]] else []) + DeadLastFirst(ws[..p], live)
  {
    assert ws[..p + 1][..p] == ws[..p];
  }

  lemma {:induction false} SurvivesIff(ws: seq<Watcher>, live: seq<DomInfo>, w: Watcher)
    ensures w in Survivors(ws, live) <==> w in ws && !IsDead(live, w.domid)
    ensures w in DeadLastFirst(ws, live) <==> w in ws && IsDead(live, w.domid)
  {
    hide IsDead;
    if ws != [] {
      var init, last := ws[..|ws| - 1], ws[|ws| - 1];
      SurvivesIff(init, live, w);
      assert ws == init + [last];
    }
  }

  lemma {:induction false} NoneIsLost(ws: seq<Watcher>, live: seq<DomInfo>)
    ensures multiset(Survivors(ws, live)) + multiset(DeadLastFirst(ws, live)) == multiset(ws)
  {
    hide IsDead;
    if ws != [] {
      var init, last := ws[..|ws| - 1], ws[|ws| - 1];
      NoneIsLost(init, live);
      assert ws == init + [last];
    }
  }

  /** A search divides the watchers by whether their domain is dead, and loses and invents none. */
  lemma SearchDivides(ws: seq<Watcher>, live: seq<DomInfo>)
    ensures forall w :: w in Survivors(ws, live) <==> w in ws && !IsDead(live, w.domid)
    ensures forall w :: w in DeadLastFirst(ws, live) <==> w in ws && IsDead(live, w.domid)
    ensures multiset(Survivors(ws, live)) + multiset(DeadLastFirst(ws, live)) == multiset(ws)
  {
    hide IsDead, Survivors, DeadLastFirst;
    NoneIsLost(ws, live);
    forall w ensures w in Survivors(ws, live) <==> w in ws && !IsDead(live, w.domid) { SurvivesIff(ws, live, w); }
    forall w ensures w in DeadLastFirst(ws, live) <==> w in ws && IsDead(live, w.domid) { SurvivesIff(ws, live, w); }
  }

  ghost predicate InDomidOrder(es: seq<Event>) {
    forall i, j :: 0 <= i < j < |es| ==> es[i].watcher.domid <= es[j].watcher.domid
  }

  /** Events come in ascending domid order. */
  lemma {:induction false} EventsAscend(ws: seq<Watcher>, told: set<Watcher>, live: seq<DomInfo>)
    requires Sorted(Ids(ws))
    ensures forall e :: e in Events(ws, told, live) ==> e.watcher in ws
    ensures InDomidOrder(Events(ws, told, live))
  {
    if ws != [] {
      var init := ws[..|ws| - 1];
      forall i, j | 0 <= i < j < |init| ensures Ids(init)[i] <= Ids(init)[j] {
        assert Ids(ws)[i] <= Ids(ws)[j];
      }
      EventsAscend(init, told, live);
      forall e | e in Events(init, told, live) ensures e.watcher.domid <= ws[|ws| - 1].domid {
        var i :| 0 <= i < |init| && init[i] == e.watcher;
        assert Ids(ws)[i] <= Ids(ws)[|ws| - 1];
      }
      AscendPlus(Events(init, told, live), EventsFor(ws[|ws| - 1], told, live), ws[|ws| - 1].domid);
    }
  }

  lemma AscendPlus(a: seq<Event>, b: seq<Event>, domid: nat)
    requires InDomidOrder(a)
    requires forall e :: e in a ==> e.watcher.domid <= domid
    requires |b| <= 1 && forall e :: e in b ==> e.watcher.domid == domid
    ensures InDomidOrder(a + b)
  {
  }

  ghost predicate Distinct(ws: seq<Watcher>) {
    forall i, j :: 0 <= i < j < |ws| ==> ws[i] != ws[j]
  }

  /** Each watched domain's events are exactly its own: one death if the domain is dead; one shutdown if
      it is alive, has shut down and its watcher has not been told; none otherwise. */
  lemma {:induction false} EventsAreExact(ws: seq<Watcher>, told: set<Watcher>, live: seq<DomInfo>, w: Watcher)
    requires Distinct(ws)
    ensures Only(Events(ws, told, live), w) == if w in ws then EventsFor(w, told, live) else []
  {
    if ws != [] {
      hide EventsFor, Only, Distinct;
      var init, last := ws[..|ws| - 1], ws[|ws| - 1];
      LastIsNew(ws);
      EventsAreExact(init, told, live, w);
      OnlyOne(last, told, live, w);
      OnlyPlus(Events(init, told, live), EventsFor(last, told, live), w);
      assert Events(ws, told, live) == Events(init, told, live) + EventsFor(last, told, live);
    } else {
      assert Only([], w) == [];
    }
  }

  lemma LastIsNew(ws: seq<Watcher>)
    requires ws != [] && Distinct(ws)
    ensures Distinct(ws[..|ws| - 1]) && ws[|ws| - 1] !in ws[..|ws| - 1]
    ensures forall w :: w in ws <==> w in ws[..|ws| - 1] || w == ws[|ws| - 1]
  {
    assert ws == ws[..|ws| - 1] + [ws[|ws| - 1]];
  }

  lemma OnlyOne(v: Watcher, told: set<Watcher>, live: seq<DomInfo>, w: Watcher)
    ensures |EventsFor(v, told, live)| <= 1
    ensures Only(EventsFor(v, told, live), w) == if v == w then EventsFor(v, told, live) else []
  {
    hide IsDead, HasShutDown, ReasonOf;
    var es := EventsFor(v, told, live);
    if es != [] {
      assert Only(es[..0], w) == [];
    }
  }

  /** The events of one watcher. */
  function Only(es: seq<Event>, w: Watcher): seq<Event> {
    if es == [] then []
    else Only(es[..|es| - 1], w) + if es[|es| - 1].watcher == w then [es[|es| - 1]] else []
  }

  lemma {:induction false} OnlyPlus(a: seq<Event>, b: seq<Event>, w: Watcher)
    requires |b| <= 1
    ensures Only(a + b, w) == Only(a, w) + Only(b, w)
  {
    if b == [] {
      assert a + b == a;
    } else {
      assert (a + b)[..|a|] == a;
      assert Only(b[..0], w) == [];
    }
  }

  // ------------------------------------------------------------------ what a page tells

  lemma {:induction false} ReasonIs(live: seq<DomInfo>, k: nat)
    requires Ascending(live) && k < |live|
    ensures ReasonOf(live, live[k].domid) == live[k].reason
  {
    if k > 0 {
      assert Ascending(live[1..]);
      assert live[0].domid < live[k].domid;
      ReasonIs(live[1..], k - 1);
    }
  }

  lemma {:induction false} FromAt(live: seq<DomInfo>, first: nat, k: nat)
    requires Ascending(live) && k < |From(live, first)|
    ensures From(live, From(live, first)[k].domid) == From(live, first)[k..]
  {
    FromUnfolds(live, first);
    FromUnfolds(live, From(live, first)[k].domid);
    FromAtLeast(live, first, k);
    hide Ascending, From;
    TailAscends(live);
    if live[0].domid < first {
      FromAt(live[1..], first, k);
    } else if k > 0 {
      Ascends(live, 0, k);
      FromUnfolds(live[1..], live[1].domid);
      FromAt(live[1..], live[1].domid, k - 1);
    }
  }

  lemma FromUnfolds(live: seq<DomInfo>, first: nat)
    requires live != []
    ensures From(live, first) == if live[0].domid >= first then live else From(live[1..], first)
  {
  }

  lemma FromAtLeast(live: seq<DomInfo>, first: nat, k: nat)
    requires Ascending(live) && k < |From(live, first)|
    ensures From(live, first)[k].domid >= first
  {
    hide Ascending, From;
    FromIs(live, first);
    assert From(live, first)[k] in From(live, first);
  }

  lemma TailAscends(live: seq<DomInfo>)
    requires Ascending(live) && live != []
    ensures Ascending(live[1..])
  {
  }

  /** What the first live domain not below a watched one says about it: all there is to say. */
  lemma {:induction false} PageDecides(live: seq<DomInfo>, first: nat, g: nat, domid: nat)
    requires Ascending(live) && domid >= first && g <= |From(live, first)|
    requires forall k :: 0 <= k < g ==> From(live, first)[k].domid < domid
    ensures g == |From(live, first)| || From(live, first)[g].domid > domid ==> IsDead(live, domid)
    ensures g < |From(live, first)| && From(live, first)[g].domid == domid ==>
      PresentSays(live, domid, From(live, first)[g]) && (From(live, first)[g].dying ==> IsDead(live, domid))
  {
    var all := From(live, first);
    forall d | d in live && d.domid == domid
      ensures g < |all| && all[g].domid <= domid && (all[g].domid == domid ==> d == all[g])
    {
      FoundAt(live, first, g, d);
    }
    if g < |all| && all[g].domid == domid {
      FromIsSuffix(live, first);
      ReasonIs(live, |live| - |all| + g);
      assert all[g] in live;
    }
  }

  lemma FoundAt(live: seq<DomInfo>, first: nat, g: nat, d: DomInfo)
    requires Ascending(live) && d in live && d.domid >= first && g <= |From(live, first)|
    requires forall k :: 0 <= k < g ==> From(live, first)[k].domid < d.domid
    ensures g < |From(live, first)| && From(live, first)[g].domid <= d.domid
    ensures From(live, first)[g].domid == d.domid ==> d == From(live, first)[g]
  {
    hide Ascending, From;
    var all := From(live, first);
    FromIs(live, first);
    var k :| 0 <= k < |all| && all[k] == d;
    Ascends(all, g, k);
  }

  lemma FromAscends(live: seq<DomInfo>, first: nat)
    requires Ascending(live)
    ensures Ascending(From(live, first))
  {
    FromIs(live, first);
  }

  lemma Ascends(live: seq<DomInfo>, i: nat, j: nat)
    requires Ascending(live) && i <= j < |live|
    ensures live[i].domid <= live[j].domid
    ensures i < j ==> live[i].domid < live[j].domid
  {
  }

  ghost predicate PresentSays(live: seq<DomInfo>, domid: nat, d: DomInfo) {
    && (IsDead(live, domid) <==> d.dying)
    && (HasShutDown(live, domid) <==> d.shutdown)
    && ReasonOf(live, domid) == d.reason
  }

  // ------------------------------------------------------------------ the context

  /** At most one shutdown and at most one death for each watcher, and no shutdown after a death. */
  ghost predicate Orderly(es: seq<Event>) {
    forall i, j :: 0 <= i < j < |es| && es[i].watcher == es[j].watcher ==>
      es[i].what.DomainShutdown? && es[j].what.DomainDeath?
  }

  /** Orderly, watcher by watcher: what one watcher ever gets is nothing, a shutdown, a death, or a
      shutdown followed by a death. */
  lemma {:induction false} LifeOfAWatcher(es: seq<Event>, w: Watcher)
    requires Orderly(es)
    ensures var own := Only(es, w);
      && (forall e :: e in own ==> e in es && e.watcher == w)
      && (|own| == 0 || |own| == 1 || (|own| == 2 && own[0].what.DomainShutdown? && own[1].what.DomainDeath?))
  {
    if es != [] {
      var init, last := es[..|es| - 1], es[|es| - 1];
      LifeOfAWatcher(init, w);
      forall e | e in init && e.watcher == last.watcher
        ensures e.what.DomainShutdown? && last.what.DomainDeath?
      {
        var i :| 0 <= i < |init| && init[i] == e;
        assert es[i] == e;
      }
    }
  }

  lemma OrderlyPlus(es: seq<Event>, e: Event)
    requires Orderly(es)
    requires forall x :: x in es && x.watcher == e.watcher ==> x.what.DomainShutdown? && e.what.DomainDeath?
    ensures Orderly(es + [e])
  {
    assert forall i :: 0 <= i < |es| ==> es[i] in es;
  }

  lemma MoveKeepsDistinct(a: seq<Watcher>, b: seq<Watcher>, k: nat)
    requires Distinct(a + b) && k < |a|
    ensures Distinct(a[..k] + a[k + 1..] + ([a[k]] + b))
    ensures a[k] !in a[..k] + a[k + 1..] && a[k] !in b
  {
    assert (a + b)[k] == a[k];
    assert forall i :: 0 <= i < |a| ==> a[i] == (a + b)[i];
    assert forall i :: 0 <= i < |b| ==> b[i] == (a + b)[|a| + i];
    var ws, was := a[..k] + a[k + 1..] + ([a[k]] + b), a + b;
    var source := i => if i < k then i else if i < |a| - 1 then i + 1 else if i == |a| - 1 then k else i;
    assert forall i :: 0 <= i < |ws| ==> 0 <= source(i) < |was| && ws[i] == was[source(i)];
  }

  /** Whether a watcher has been told of a shutdown, once it is settled or before. */
  ghost predicate IsTold(w: Watcher, told: set<Watcher>, live: seq<DomInfo>, settled: bool) {
    w in told || (settled && !IsDead(live, w.domid) && HasShutDown(live, w.domid))
  }

  lemma DeadIs(w: Watcher, told: set<Watcher>, live: seq<DomInfo>)
    requires IsDead(live, w.domid)
    ensures EventsFor(w, told, live) == [Event(w, DomainDeath)]
    ensures IsTold(w, told, live, true) == IsTold(w, told, live, false)
  {
  }

  lemma AliveIs(w: Watcher, told: set<Watcher>, live: seq<DomInfo>, info: DomInfo)
    requires PresentSays(live, w.domid, info) && !info.dying
    ensures !IsDead(live, w.domid)
    ensures var told' := IsTold(w, told, live, false);
      && (IsTold(w, told, live, true) <==> told' || info.shutdown)
      && EventsFor(w, told, live) == if !told' && info.shutdown then [Event(w, DomainShutdown(info.reason))] else []
  {
  }

  /** What a search starts from: the watchers, those moved away before, the events so far, and the
      watchers told of a shutdown. */
  datatype Start = Start(watchers: seq<Watcher>, moved: seq<Watcher>, events: seq<Event>, told: set<Watcher>)

  ghost function Of(ws: seq<Watcher>): set<Watcher> {
    set w | w in ws
  }

  function Without(ws: seq<Watcher>, w: Watcher): seq<Watcher> {
    if ws == [] then [] else if ws[0] == w then ws[1..] else [ws[0]] + Without(ws[1..], w)
  }

  lemma {:induction false} WithoutIs(ws: seq<Watcher>, w: Watcher) returns (k: nat)
    ensures w !in ws ==> Without(ws, w) == ws
    ensures w in ws ==> k < |ws| && ws[k] == w && Without(ws, w) == ws[..k] + ws[k + 1..]
  {
    k := 0;
    if ws != [] && ws[0] != w {
      var k' := WithoutIs(ws[1..], w);
      k := k' + 1;
      assert Without(ws, w) == [ws[0]] + Without(ws[1..], w);
      hide Without;
      if w in ws {
        OneLater(ws[0], ws[1..], k');
      }
      assert ws == [ws[0]] + ws[1..];
    }
  }

  lemma OneLater(first: Watcher, rest: seq<Watcher>, k: nat)
    requires k < |rest|
    ensures var ws := [first] + rest;
      ws[k + 1] == rest[k] && ws[..k + 1] + ws[k + 2..] == [first] + (rest[..k] + rest[k + 1..])
  {
  }

  lemma DropKeepsDistinct(ws: seq<Watcher>, k: nat)
    requires Distinct(ws) && k < |ws|
    ensures Distinct(ws[..k] + ws[k + 1..]) && ws[k] !in ws[..k] + ws[k + 1..]
  {
    var rest := ws[..k] + ws[k + 1..];
    assert forall i :: 0 <= i < |rest| ==> rest[i] == ws[if i < k then i else i + 1];
  }

  lemma DropKeepsOrder(ws: seq<Watcher>, k: nat)
    requires Sorted(Ids(ws)) && k < |ws|
    ensures Sorted(Ids(ws[..k] + ws[k + 1..]))
  {
    var rest := ws[..k] + ws[k + 1..];
    assert forall i :: 0 <= i < |rest| ==> Ids(rest)[i] == Ids(ws)[if i < k then i else i + 1];
  }

  lemma WithoutNew(ws: seq<Watcher>, w: Watcher)
    requires w !in ws
    ensures Without(ws, w) == ws && Without([w], w) == []
  {
    var k := WithoutIs(ws, w);
  }

  /** A watcher leaves one of two disjoint lists. */
  lemma LeaveIs(a: seq<Watcher>, b: seq<Watcher>, w: Watcher)
    requires Distinct(a + b) && Sorted(Ids(a)) && (w in a || w in b)
    ensures var a', b' := Without(a, w), Without(b, w);
      && Distinct(a' + b') && Sorted(Ids(a')) && w !in a' + b'
      && (w !in a ==> a' == a) && (w !in b ==> b' == b)
      && (forall x :: x in a' <==> x in a && x != w) && (forall x :: x in b' <==> x in b && x != w)
  {
    var i := WithoutIs(a, w);
    var j := WithoutIs(b, w);
    hide Sorted, Without;
    var k := if w in a then i else |a| + j;
    DropKeepsDistinct(a + b, k);
    if w in a {
      assert w !in b by {
        assert forall n :: 0 <= n < |b| ==> b[n] == (a + b)[|a| + n];
      }
      DropKeepsOrder(a, i);
    }
    hide Distinct;
    assert (a + b)[..k] + (a + b)[k + 1..] == Without(a, w) + Without(b, w);
  }

  /** A list with a new watcher right before the first one whose domid is not lower. */
  ghost predicate Inserted(was: seq<Watcher>, w: Watcher, at: nat, ws: seq<Watcher>) {
    && at <= |was| && ws == was[..at] + [w] + was[at..]
    && (forall i :: 0 <= i < at ==> was[i].domid < w.domid)
    && (forall i :: at <= i < |was| ==> was[i].domid >= w.domid)
  }

  lemma FirstIsDistinct(a: seq<Watcher>, b: seq<Watcher>)
    requires Distinct(a + b)
    ensures Distinct(a)
  {
    assert forall i :: 0 <= i < |a| ==> (a + b)[i] == a[i];
  }

  lemma InsertKeepsDistinct(ws: seq<Watcher>, w: Watcher, at: nat)
    requires Distinct(ws) && w !in ws && at <= |ws|
    ensures Distinct(ws[..at] + [w] + ws[at..])
  {
    var more := ws[..at] + [w] + ws[at..];
    assert forall i :: 0 <= i < |more| && i != at ==> more[i] == ws[if i < at then i else i - 1];
  }

  lemma InsertKeepsOrder(ws: seq<Watcher>, w: Watcher, at: nat)
    requires at <= |ws| && Sorted(Ids(ws)) && Inserted(ws, w, at, ws[..at] + [w] + ws[at..])
    ensures Sorted(Ids(ws[..at] + [w] + ws[at..]))
  {
    var ids', ids := Ids(ws[..at] + [w] + ws[at..]), Ids(ws);
    assert forall i :: 0 <= i < |ids'| && i != at ==> ids'[i] == ids[if i < at then i else i - 1];
  }

  lemma InsertKeeps(a: seq<Watcher>, b: seq<Watcher>, w: Watcher, at: nat)
    requires Distinct(a + b) && Sorted(Ids(a)) && w !in a && w !in b
    requires at <= |a| && Inserted(a, w, at, a[..at] + [w] + a[at..])
    ensures Distinct(a[..at] + [w] + a[at..] + b) && Sorted(Ids(a[..at] + [w] + a[at..]))
  {
    InsertKeepsOrder(a, w, at);
    InsertKeepsDistinct(a + b, w, at);
    hide Distinct, Sorted;
    assert (a + b)[..at] + [w] + (a + b)[at..] == a[..at] + [w] + a[at..] + b;
  }

  ghost predicate SettledLists(start: Start, live: seq<DomInfo>, p: nat, watched: seq<Watcher>, moved: seq<Watcher>,
                               events: seq<Event>)
  {
    var ws := start.watchers;
    && p <= |ws|
    && watched == Survivors(ws[..p], live) + ws[p..]
    && moved == DeadLastFirst(ws[..p], live) + start.moved
    && events == start.events + Events(ws[..p], start.told, live)
  }

  lemma DeadNext(start: Start, live: seq<DomInfo>, p: nat, watched: seq<Watcher>, moved: seq<Watcher>,
                 events: seq<Event>, evg: nat)
    requires SettledLists(start, live, p, watched, moved, events) && p < |start.watchers|
    requires evg == |Survivors(start.watchers[..p], live)| && IsDead(live, start.watchers[p].domid)
    ensures var w := start.watchers[p];
      && evg < |watched| && watched[evg] == w
      && SettledLists(start, live, p + 1, watched[..evg] + watched[evg + 1..], [w] + moved,
                      events + [Event(w, DomainDeath)])
      && evg == |Survivors(start.watchers[..p + 1], live)|
  {
    hide Survivors, Events, DeadLastFirst, EventsFor, IsDead;
    NextWatcher(start.watchers, start.told, live, p);
    DeadIs(start.watchers[p], start.told, live);
  }

  datatype Outcome = NothingWatched | AllReported | QueryFailed

  datatype Enabling = Enabled | NoMemory | NotRegistered

  type Snapshot = live: seq<DomInfo> | Ascending(live) ghost witness []

  datatype Call =
    | Enable(domid: nat, memory: bool, registers: bool)
    | Disable(nth: nat)
    | Released(live: Snapshot, answers: nat)

  class Context {
    var deathList: seq<Watcher>
    var deathReported: seq<Watcher>
    var watchRegistered: bool
    var occurred: seq<Event>

    ghost predicate Valid()
      reads this, deathList, deathReported
    {
      Lists() && (deathList != [] ==> watchRegistered)
    }

    /** All but that the watch is registered when it must be. */
    ghost predicate Lists()
      reads this`deathList, this`deathReported, this`occurred, deathList, deathReported
    {
      && Distinct(deathList + deathReported)
      && Sorted(Ids(deathList))
      && (forall w :: w in deathList ==> !w.deathReported)
      && (forall w :: w in deathReported ==> w.deathReported)
      && Orderly(occurred)
      && (forall w :: w in deathList + deathReported ==>
            && (w.deathReported <==> exists e :: e in occurred && e.watcher == w && e.what.DomainDeath?)
            && (w.shutdownReported <==> exists e :: e in occurred && e.watcher == w && e.what.DomainShutdown?))
    }

    /** The watchers on the two lists. */
    ghost function Members(): set<Watcher>
      reads this`deathList, this`deathReported
    {
      Of(deathList) + Of(deathReported)
    }

    /** The watchers that have been told of a shutdown. */
    ghost function Told(): set<Watcher>
      reads this, deathList
    {
      set w | w in deathList && w.shutdownReported
    }

    constructor ()
      ensures Valid() && deathList == [] && deathReported == [] && !watchRegistered && occurred == []
    {
      deathList, deathReported, watchRegistered, occurred := [], [], false, [];
    }

    /** domain_death_occurred; the place stays that of the next watcher. */
    method DomainDeathOccurred(evg: nat)
      requires Valid() && evg < |deathList|
      modifies this`deathList, this`deathReported, this`occurred, {deathList[evg]}`deathReported
      ensures Valid()
      ensures deathList == old(deathList[..evg] + deathList[evg + 1..])
      ensures deathReported == old([deathList[evg]] + deathReported)
      ensures occurred == old(occurred) + [Event(old(deathList[evg]), DomainDeath)]
      ensures old(deathList[evg]).deathReported
    {
      hide Distinct, Orderly, Sorted;
      DropKeepsOrder(deathList, evg);
      var w := deathList[evg];
      MoveKeepsDistinct(deathList, deathReported, evg);
      assert w in deathList + deathReported && !w.deathReported;
      OrderlyPlus(occurred, Event(w, DomainDeath));
      assert forall i :: 0 <= i < |deathList| ==> deathList[i] == (deathList + deathReported)[i];
      occurred := occurred + [Event(w, DomainDeath)];
      w.deathReported := true;
      deathList := deathList[..evg] + deathList[evg + 1..];
      deathReported := [w] + deathReported;
    }

    method ReportShutdown(evg: nat, reason: nat)
      requires Valid() && evg < |deathList| && !deathList[evg].shutdownReported
      modifies this`occurred, {deathList[evg]}`shutdownReported
      ensures Valid()
      ensures occurred == old(occurred) + [Event(deathList[evg], DomainShutdown(reason))]
      ensures deathList[evg].shutdownReported
    {
      occurred := occurred + [Event(deathList[evg], DomainShutdown(reason))];
      deathList[evg].shutdownReported := true;
    }

    /** The state of a search that has settled the first p watchers: the dead ones are moved, the
        events are out, and the flags of the others say who has been told. */
    ghost predicate Settled(start: Start, live: seq<DomInfo>, p: nat)
      reads this, start.watchers
    {
      var ws := start.watchers;
      && SettledLists(start, live, p, deathList, deathReported, occurred)
      && (forall i :: 0 <= i < |ws| ==> (ws[i].shutdownReported <==> IsTold(ws[i], start.told, live, i < p)))
    }

    lemma StartIsSettled(live: seq<DomInfo>)
      requires Valid()
      ensures Settled(Start(deathList, deathReported, occurred, Told()), live, 0)
      ensures Ascending(live) ==> Searching(Start(deathList, deathReported, occurred, Told()), live, 0, 0)
    {
      FirstIsDistinct(deathList, deathReported);
      assert deathList[..0] == [] && deathList[0..] == deathList;
      hide Lists, Distinct, Sorted, Ascending;
    }

    lemma SettledSays(start: Start, live: seq<DomInfo>, p: nat, evg: nat)
      requires Settled(start, live, p) && evg == |Survivors(start.watchers[..p], live)|
      ensures |deathList| - evg == |start.watchers| - p
      ensures p < |start.watchers| ==> deathList[evg] == start.watchers[p]
    {
    }

    lemma SettledWithin(start: Start, live: seq<DomInfo>, p: nat)
      requires Settled(start, live, p)
      ensures Members() == Of(start.watchers) + Of(start.moved) && start.events <= occurred
    {
      var ws := start.watchers;
      SearchDivides(ws[..p], live);
      assert ws == ws[..p] + ws[p..];
    }

    /** A search on its way: p watchers are settled, evg is the place of the next one. */
    ghost predicate Searching(start: Start, live: seq<DomInfo>, p: nat, evg: nat)
      reads this, deathList, deathReported, start.watchers
    {
      && Valid() && Settled(start, live, p) && Ascending(live)
      && evg == |Survivors(start.watchers[..p], live)|
      && Distinct(start.watchers) && Sorted(Ids(start.watchers))
    }

    lemma SearchingSays(start: Start, live: seq<DomInfo>, p: nat, evg: nat)
      requires Searching(start, live, p, evg)
      ensures Valid() && Settled(start, live, p) && Ascending(live) && Sorted(Ids(start.watchers))
      ensures |deathList| - evg == |start.watchers| - p && p <= |start.watchers|
      ensures p < |start.watchers| ==> deathList[evg] == start.watchers[p]
    {
      hide Valid, Ascending, Distinct, Sorted;
      SettledSays(start, live, p, evg);
    }

    /** The death of the watcher at evg settles one more. */
    method SettleDead(ghost start: Start, live: seq<DomInfo>, ghost p: nat, evg: nat)
      requires Searching(start, live, p, evg) && p < |start.watchers| && IsDead(live, start.watchers[p].domid)
      modifies this`deathList, this`deathReported, this`occurred, start.watchers
      ensures Searching(start, live, p + 1, evg)
    {
      hide Valid, Survivors, SettledLists, IsDead, IsTold, Ascending, Sorted, Distinct;
      DeadNext(start, live, p, deathList, deathReported, occurred, evg);
      DeadIs(start.watchers[p], start.told, live);
      DomainDeathOccurred(evg);
    }

    /** A watcher whose domain is listed and not dying stays; it is told of a shutdown once. */
    method SettleAlive(ghost start: Start, live: seq<DomInfo>, ghost p: nat, evg: nat, info: DomInfo)
      requires Searching(start, live, p, evg) && p < |start.watchers|
      requires PresentSays(live, start.watchers[p].domid, info) && !info.dying
      modifies this`deathList, this`deathReported, this`occurred, start.watchers
      ensures Searching(start, live, p + 1, evg + 1)
    {
      hide Valid, Survivors, Events, DeadLastFirst, EventsFor, HasShutDown, IsTold, IsDead, PresentSays, ReasonOf,
        Ascending, Sorted;
      SettledSays(start, live, p, evg);
      NextWatcher(start.watchers, start.told, live, p);
      AliveIs(start.watchers[p], start.told, live, info);
      if !deathList[evg].shutdownReported && info.shutdown {
        ReportShutdown(evg, info.reason);
      }
    }

    /** The inner loop: settle watchers against one page, the live domains s .. s + |infos|, until none
        is left or the page is used up. */
    method MergePage(ghost start: Start, live: seq<DomInfo>, ghost s: nat, infos: seq<DomInfo>, ghost from: nat,
                     next: nat)
      returns (finished: bool, ghost p: nat, evg: nat, ghost at: nat)
      requires Searching(start, live, from, next) && from < |start.watchers|
      requires OnPage(start.watchers, live, s, 0, infos, from)
      modifies this`deathList, this`deathReported, this`occurred, start.watchers
      ensures Searching(start, live, p, evg) && OnPage(start.watchers, live, s, at, infos, p)
      ensures finished <==> p == |start.watchers|
      ensures !finished ==> p < |start.watchers| && |infos| > 0 && at == |infos|
    {
      hide *;
      p, evg := from, next;
      var got: nat := 0;
      while true
        invariant Searching(start, live, p, evg) && OnPage(start.watchers, live, s, got, infos, p)
        invariant got <= |infos| && p <= |start.watchers|
        decreases |start.watchers| - p + |infos| - got
      {
        SearchingSays(start, live, p, evg);
        if evg == |deathList| { return true, p, evg, got; }
        PageStep(start.watchers, live, s, got, infos, p);
        if |infos| == 0 {
          SettleDead(start, live, p, evg);
          p := p + 1;
          continue;
        }
        if got == |infos| { return false, p, evg, got; }
        if infos[got].domid > deathList[evg].domid {
          SettleDead(start, live, p, evg);
          p := p + 1;
          continue;
        }
        if infos[got].domid < deathList[evg].domid {
          got := got + 1;
          continue;
        }
        if infos[got].dying {
          SettleDead(start, live, p, evg);
          p := p + 1;
          continue;
        }
        SettleAlive(start, live, p, evg, infos[got]);
        p, evg := p + 1, evg + 1;
      }
    }

    /** The search: a merge of the sorted watchers against the pages of live domains, answered that many
        times by the hypervisor.  It settles some first part of the watchers, and all of them if and
        only if it completes. */
    method DeathSearch(live: seq<DomInfo>, answers: nat) returns (outcome: Outcome, ghost p: nat)
      requires Valid() && Ascending(live)
      modifies this`deathList, this`deathReported, this`occurred, deathList
      ensures Valid()
      ensures Settled(old(Start(deathList, deathReported, occurred, Told())), live, p)
      ensures outcome.NothingWatched? <==> |old(deathList)| == 0
      ensures outcome.AllReported? <==> ReportsAll(old(deathList), live, answers)
      ensures outcome.AllReported? ==> p == |old(deathList)|
    {
      hide *;
      StartIsSettled(live);
      p := 0;
      ghost var start := Start(deathList, deathReported, occurred, Told());
      SearchingSays(start, live, 0, 0);
      SearchStarts(start.watchers, live, answers);
      ReportsAllIff(start.watchers, live, answers);
      if |deathList| == 0 { return NothingWatched, 0; }
      var evg: nat, queries: nat, domid: nat := 0, 0, deathList[0].domid;
      ghost var s: nat, at: nat := 0, 0;
      while true
        invariant Searching(start, live, p, evg) && queries <= answers && p < |start.watchers|
        invariant OnWay(start.watchers, live, domid, s, p, answers, answers - queries)
        decreases answers - queries
      {
        SearchingSays(start, live, p, evg);
        var nentries: nat := if evg + 1 < |deathList| then PAGE else 1;
        if queries == answers {
          NoAnswer(start.watchers, live, domid, s, p, answers);
          return QueryFailed, p;
        }
        var infos := Page(live, domid, nentries);
        AskPage(start.watchers, live, domid, s, p, answers, answers - queries, nentries);
        ghost var from := p;
        var finished;
        finished, p, evg, at := MergePage(start, live, s, infos, p, evg);
        SearchingSays(start, live, p, evg);
        PageUsedUp(start.watchers, live, domid, s, answers, answers - queries, at, infos, from, p);
        if finished { return AllReported, p; }
        domid, s := infos[|infos| - 1].domid, s + |infos| - 1;
        queries := queries + 1;
      }
    }

    /** When a search has settled all watchers: those still watched are exactly those whose domain is alive,
        each of them told if it has shut down; none is lost; and the new events are, for each watcher,
        exactly its own, in ascending domid order. */
    lemma AllSettledMeans(start: Start, live: seq<DomInfo>)
      requires Settled(start, live, |start.watchers|)
      requires Distinct(start.watchers) && Sorted(Ids(start.watchers))
      ensures forall w :: w in deathList <==> w in start.watchers && !IsDead(live, w.domid)
      ensures forall w :: w in deathReported <==>
        w in start.moved || (w in start.watchers && IsDead(live, w.domid))
      ensures multiset(deathList) + multiset(deathReported) == multiset(start.watchers) + multiset(start.moved)
      ensures forall w :: w in deathList && HasShutDown(live, w.domid) ==> w.shutdownReported
      ensures |start.events| <= |occurred| && occurred[..|start.events|] == start.events
      ensures InDomidOrder(occurred[|start.events|..])
      ensures forall w :: Only(occurred[|start.events|..], w)
                       == if w in start.watchers then EventsFor(w, start.told, live) else []
    {
      hide Survivors, DeadLastFirst, Events, EventsFor, IsDead, HasShutDown, Only, InDomidOrder, Sorted, Distinct;
      var ws := start.watchers;
      assert ws[..|ws|] == ws;
      SearchDivides(ws, live);
      EventsAscend(ws, start.told, live);
      assert occurred[|start.events|..] == Events(ws, start.told, live);
      forall w ensures Only(Events(ws, start.told, live), w) == if w in ws then EventsFor(w, start.told, live) else [] {
        EventsAreExact(ws, start.told, live, w);
      }
    }

    /** Where a new watcher goes: before the first one whose domid is not lower. */
    method Place(domid: nat) returns (at: nat)
      requires Sorted(Ids(deathList))
      ensures at <= |deathList|
      ensures forall i :: 0 <= i < at ==> deathList[i].domid < domid
      ensures forall i :: at <= i < |deathList| ==> deathList[i].domid >= domid
    {
      at := 0;
      while at < |deathList| && domid > deathList[at].domid
        invariant at <= |deathList|
        invariant forall i :: 0 <= i < at ==> deathList[i].domid < domid
      {
        at := at + 1;
      }
      assert forall i :: at <= i < |deathList| ==> Ids(deathList)[at] <= Ids(deathList)[i];
    }

    /** libxl_evenable_domain_death: a new watcher goes before the first one whose domid is not lower. */
    method EvEnable(domid: nat, memory: bool, registers: bool) returns (rc: Enabling, evg: Watcher?, ghost at: nat)
      requires Valid()
      modifies this`deathList, this`deathReported, this`watchRegistered
      ensures Valid() && deathReported == old(deathReported)
      ensures rc.NoMemory? <==> !memory
      ensures rc.NotRegistered? <==> memory && !old(watchRegistered) && !registers
      ensures !rc.Enabled? ==> evg == null && deathList == old(deathList) && watchRegistered == old(watchRegistered)
      ensures rc.Enabled? ==> evg != null && fresh(evg) && evg.domid == domid && watchRegistered
      ensures rc.Enabled? ==> !evg.shutdownReported && !evg.deathReported
      ensures rc.Enabled? ==> Inserted(old(deathList), evg, at, deathList)
    {
      hide Lists;
      if !memory { return NoMemory, null, 0; }
      var w := new Watcher(domid);
      at := Insert(w);
      if !watchRegistered {
        if registers {
          watchRegistered := true;
        } else {
          assert deathList == [w];
          EvDisable(w);
          WithoutNew(old(deathReported), w);
          return NotRegistered, null, 0;
        }
      }
      return Enabled, w, at;
    }

    /** A new watcher goes before the first one whose domid is not lower. */
    method Insert(w: Watcher) returns (at: nat)
      requires Lists() && w !in deathList && w !in deathReported && !w.shutdownReported && !w.deathReported
      requires forall e :: e in occurred ==> e.watcher != w
      modifies this`deathList
      ensures Lists()
      ensures Inserted(old(deathList), w, at, deathList)
    {
      at := Place(w.domid);
      ghost var was := deathList;
      InsertKeeps(deathList, deathReported, w, at);
      hide Orderly, Sorted, Distinct;
      deathList := deathList[..at] + [w] + deathList[at..];
      assert Inserted(was, w, at, deathList);
    }

    /** libxl__evdisable_domain_death: the watcher leaves the list it is on, and with the last one on the
        death list the watch goes. */
    method EvDisable(evg: Watcher)
      requires Lists() && (evg in deathList || evg in deathReported)
      modifies this`deathList, this`deathReported, this`watchRegistered
      ensures Lists() && (old(Valid()) ==> Valid())
      ensures Members() == old(Members()) - {evg}
      ensures deathList == Without(old(deathList), evg) && deathReported == Without(old(deathReported), evg)
      ensures watchRegistered <==> old(watchRegistered) && deathList != []
    {
      hide Distinct, Sorted, Without, Orderly;
      LeaveIs(deathList, deathReported, evg);
      if !evg.deathReported {
        deathList := Without(deathList, evg);
      } else {
        deathReported := Without(deathReported, evg);
      }
      if deathList == [] && watchRegistered { watchRegistered := false; }
    }

    /** A search keeps the watchers, and takes no event back. */
    method Search(live: Snapshot, answers: nat) returns (outcome: Outcome)
      requires Valid()
      modifies this`deathList, this`deathReported, this`occurred, deathList
      ensures Valid() && Members() == old(Members()) && old(occurred) <= occurred
    {
      hide Lists, Settled, ReportsAll;
      ghost var start := Start(deathList, deathReported, occurred, Told());
      ghost var p;
      outcome, p := DeathSearch(live, answers);
      SettledWithin(start, live, p);
    }

    /** Any sequence of calls: the two lists stay disjoint and each watcher on the one that its flag says,
        the death list stays sorted and watched, and no watcher gets a second shutdown or death, or a
        shutdown after its death (Valid); events are never taken back; and the two lists hold exactly the watchers
        that were there or have been enabled, and have not been disabled.  Enabling gives a new watcher for each
        call that finds memory and can register. */
    method Run(calls: seq<Call>) returns (enabled: seq<Watcher>, disabled: seq<Watcher>)
      requires Valid()
      modifies this, deathList, deathReported
      ensures Valid()
      ensures old(occurred) <= occurred
      ensures Members() == old(Members()) + Of(enabled) - Of(disabled)
      ensures forall w :: w in enabled ==> fresh(w)
      ensures Of(disabled) <= old(Members()) + Of(enabled)
      ensures |disabled| <= |Disables(calls)|
      ensures (forall c :: c in calls && c.Enable? ==> c.memory && c.registers) ==> Ids(enabled) == EnabledIds(calls)
    {
      hide Valid, Of, Ids, Disables, EnabledIds;
      NoneYet();
      MembersAre();
      enabled, disabled := [], [];
      for i := 0 to |calls|
        invariant Valid() && old(occurred) <= occurred
        invariant forall w :: w in enabled ==> fresh(w)
        invariant Members() == old(Members()) + Of(enabled) - Of(disabled)
        invariant Of(disabled) <= old(Members()) + Of(enabled)
        invariant |disabled| <= |Disables(calls[..i])|
        invariant (forall c :: c in calls && c.Enable? ==> c.memory && c.registers) ==>
          Ids(enabled) == EnabledIds(calls[..i])
      {
        OneMoreCall(calls, i);
        InLists(old(Members()), enabled);
        assert fresh(set w | w in deathList && w !in old(deathList) && w !in old(deathReported));
        assert fresh(set w | w in deathReported && w !in old(deathList) && w !in old(deathReported));
        ghost var mid := Members();
        ghost var known := old(Members()) + Of(enabled);
        var added, removed := Handle(calls[i], known);
        Account(old(Members()), mid, enabled, disabled, added, removed);
        enabled, disabled := enabled + added, disabled + removed;
      }
      assert calls[..|calls|] == calls;
    }

    lemma MembersAre()
      ensures forall w :: w in Members() <==> w in deathList || w in deathReported
    {
    }

    lemma InLists(was: set<Watcher>, enabled: seq<Watcher>)
      requires Members() <= was + Of(enabled)
      ensures forall w :: w in deathList || w in deathReported ==> w in was || w in enabled
    {
      assert forall w :: w in deathList || w in deathReported ==> w in Members();
    }

    /** One call, and the watcher that it has added or removed, if any; one that is added is none of those known. */
    method Handle(call: Call, ghost known: set<Watcher>) returns (added: seq<Watcher>, removed: seq<Watcher>)
      requires Valid()
      modifies this, deathList, deathReported
      ensures Valid() && old(occurred) <= occurred
      ensures Members() == old(Members()) + Of(added) - Of(removed)
      ensures Of(removed) <= old(Members()) && |removed| <= (if call.Disable? then 1 else 0)
      ensures forall w :: w in added ==> fresh(w) && w !in known
      ensures added == [] || (call.Enable? && Ids(added) == [call.domid])
      ensures call.Enable? && call.memory && call.registers ==> added != []
    {
      hide Lists, Inserted;
      added, removed := [], [];
      match call
      case Enable(domid, memory, registers) =>
        ghost var was := deathList;
        var rc, evg, at := EvEnable(domid, memory, registers);
        if rc.Enabled? {
          InsertedHolds(was, evg, at, deathList);
          added := [evg];
        }
      case Disable(nth) =>
        if nth < |deathList + deathReported| {
          var evg := (deathList + deathReported)[nth];
          EvDisable(evg);
          removed := [evg];
        }
      case Released(live, answers) =>
        var outcome := Search(live, answers);
    }
  }

  lemma NoneYet()
    ensures Of([]) == {} && Ids([]) == [] && EnabledIds([]) == [] && Disables([]) == []
  {
  }

  /** New watchers are added to those that are there, and some of these are removed. */
  lemma Account(was: set<Watcher>, mid: set<Watcher>, enabled: seq<Watcher>, disabled: seq<Watcher>,
                added: seq<Watcher>,
                removed: seq<Watcher>)
    requires mid == was + Of(enabled) - Of(disabled) && Of(disabled) <= was + Of(enabled) && Of(removed) <= mid
    requires forall w :: w in added ==> w !in was + Of(enabled)
    ensures mid + Of(added) - Of(removed) == was + Of(enabled + added) - Of(disabled + removed)
    ensures Of(disabled + removed) <= was + Of(enabled + added)
    ensures Ids(enabled + added) == Ids(enabled) + Ids(added)
  {
    assert Of(enabled + added) == Of(enabled) + Of(added) && Of(disabled + removed) == Of(disabled) + Of(removed);
  }

  lemma InsertedHolds(was: seq<Watcher>, w: Watcher, at: nat, ws: seq<Watcher>)
    requires Inserted(was, w, at, ws)
    ensures forall x :: x in ws <==> x in was || x == w
  {
    assert was == was[..at] + was[at..];
  }

  /** The domids of the calls that enable a watcher, in order. */
  function EnabledIds(calls: seq<Call>): seq<nat> {
    if calls == [] then []
    else
      var last := calls[|calls| - 1];
      EnabledIds(calls[..|calls| - 1]) + if last.Enable? then [last.domid] else []
  }

  function Disables(calls: seq<Call>): seq<Call> {
    if calls == [] then []
    else
      var last := calls[|calls| - 1];
      Disables(calls[..|calls| - 1]) + if last.Disable? then [last] else []
  }

  lemma OneMoreCall(calls: seq<Call>, i: nat)
    requires i < |calls|
    ensures EnabledIds(calls[..i + 1]) == EnabledIds(calls[..i]) + if calls[i].Enable? then [calls[i].domid] else []
    ensures Disables(calls[..i + 1]) == Disables(calls[..i]) + if calls[i].Disable? then [calls[i]] else []
  {
    assert calls[..i + 1][..i] == calls[..i];
  }

  lemma NextId(ids: seq<nat>, p: nat)
    requires Sorted(ids) && p < |ids|
    ensures ids[0] <= ids[p] && ids[p] <= ids[|ids| - 1]
    ensures p + 1 < |ids| ==> ids[p] <= ids[p + 1] && ids[p] <= ids[|ids| - 2]
  {
  }

  /** The live domains s .. s + |infos| of those from the first watched one on. */
  ghost predicate IsPage(live: seq<DomInfo>, first: nat, s: nat, infos: seq<DomInfo>) {
    var all := From(live, first);
    s + |infos| <= |all| && infos == all[s..s + |infos|] && (|infos| == 0 ==> |all| == 0)
  }

  /** All live domains before the current one on the page are below the current watcher, and all watchers
      settled so far are at most the page's last domain. */
  ghost predicate MergedTo(ids: seq<nat>, live: seq<DomInfo>, first: nat, s: nat, got: nat, infos: seq<DomInfo>,
                           p: nat) {
    && s + got <= |From(live, first)|
    && (p < |ids| ==> forall k :: 0 <= k < s + got ==> From(live, first)[k].domid < ids[p])
    && (infos != [] ==> forall i :: 0 <= i < p && i < |ids| ==> ids[i] <= infos[|infos| - 1].domid)
  }

  /** What comparing a watcher with the current domain of the page says. */
  lemma MergeStep(ids: seq<nat>, live: seq<DomInfo>, first: nat, s: nat, got: nat, infos: seq<DomInfo>, p: nat)
    requires Sorted(ids) && Ascending(live) && p < |ids| && first <= ids[0]
    requires IsPage(live, first, s, infos) && got <= |infos| && MergedTo(ids, live, first, s, got, infos, p)
    ensures infos == [] || (got < |infos| && infos[got].domid > ids[p]) ==>
      IsDead(live, ids[p]) && MergedTo(ids, live, first, s, got, infos, p + 1)
    ensures got < |infos| && infos[got].domid < ids[p] ==> MergedTo(ids, live, first, s, got + 1, infos, p)
    ensures got < |infos| && infos[got].domid == ids[p] ==>
      && PresentSays(live, ids[p], infos[got])
      && (infos[got].dying ==> IsDead(live, ids[p]))
      && MergedTo(ids, live, first, s, got, infos, p + 1)
  {
    hide Sorted, Ascending, From, IsDead, PresentSays;
    NextId(ids, p);
    PageDecides(live, first, s + got, ids[p]);
    if got < |infos| { LastIsHighest(live, first, s, got, infos); }
  }

  lemma LastIsHighest(live: seq<DomInfo>, first: nat, s: nat, got: nat, infos: seq<DomInfo>)
    requires Ascending(live) && IsPage(live, first, s, infos) && got < |infos|
    ensures infos[got] == From(live, first)[s + got] && infos[got].domid <= infos[|infos| - 1].domid
  {
    hide Ascending, From;
    FromAscends(live, first);
    Ascends(From(live, first), s + got, s + |infos| - 1);
  }

  /** The search is about to ask for the live domains from domid on, which start at position s: all
      before s are below the next watcher, and all watchers settled so far are at most the one at s. */
  ghost predicate AtPage(ids: seq<nat>, live: seq<DomInfo>, first: nat, domid: nat, s: nat, p: nat) {
    var all := From(live, first);
    && p < |ids| && s <= |all| && (|all| > 0 ==> s < |all|) && From(live, domid) == all[s..]
    && (s == 0 ==> p == 0 || |all| == 1)
    && (forall k :: 0 <= k < s ==> all[k].domid < ids[p])
    && (s > 0 || p > 0 ==> |all| > 0 && all[s].domid < ids[p] && forall i :: 0 <= i < p ==> ids[i] <= all[s].domid)
  }

  /** Whether the search, at position s, will report everything. */
  ghost predicate WillComplete(ids: seq<nat>, live: seq<DomInfo>, first: nat, s: nat, answers: nat) {
    var all := From(live, first);
    |ids| > 0 && (|all| > 0 ==> s < |all|) && Completes(ids, all, s, answers)
  }

  /** The page is the one that Completes reckons with. */
  ghost predicate IsWholePage(ids: seq<nat>, live: seq<DomInfo>, first: nat, s: nat, infos: seq<DomInfo>) {
    var all := From(live, first);
    && |ids| > 0 && (|infos| > 0 <==> |all| > 0)
    && (|all| > 0 ==> s < |all| && LastOnPage(ids, all, s) == s + |infos| - 1)
    && (s + |infos| == 1 ==> |ids| == 1 || |all| == 1)
  }

  /** Whether a search for these watchers, from the first watched domid on, reports everything. */
  ghost predicate SearchCompletes(ws: seq<Watcher>, live: seq<DomInfo>, answers: nat) {
    |ws| > 0 && Completes(Ids(ws), From(live, ws[0].domid), 0, answers)
  }

  /** Whether a search can report everything, and the hypervisor answers as often as that takes: up to the page on
      which the highest watched domid is passed. */
  ghost predicate ReportsAll(ws: seq<Watcher>, live: seq<DomInfo>, answers: nat) {
    |ws| > 0 && (
      var ids, all := Ids(ws), From(live, ws[0].domid);
      Ends(ids, all) && answers > if all == [] then 0 else FinalPage(Below(all, ids[|ids| - 1])))
  }

  lemma ReportsAllIff(ws: seq<Watcher>, live: seq<DomInfo>, answers: nat)
    requires Sorted(Ids(ws)) && Ascending(live)
    ensures ReportsAll(ws, live, answers) <==> SearchCompletes(ws, live, answers)
  {
    if |ws| > 0 {
      FromIs(live, ws[0].domid);
      SearchCompletesIff(Ids(ws), From(live, ws[0].domid), answers);
    }
  }

  /** The search at a page, with that many answers left of those it had. */
  ghost predicate OnWay(ws: seq<Watcher>, live: seq<DomInfo>, domid: nat, s: nat, p: nat, answers: nat, left: nat) {
    && |ws| > 0 && p < |ws| && AtPage(Ids(ws), live, ws[0].domid, domid, s, p)
    && (SearchCompletes(ws, live, answers) <==> WillComplete(Ids(ws), live, ws[0].domid, s, left))
  }

  /** The search within a page. */
  ghost predicate OnPage(ws: seq<Watcher>, live: seq<DomInfo>, s: nat, got: nat, infos: seq<DomInfo>, p: nat) {
    && |ws| > 0 && got <= |infos|
    && IsPage(live, ws[0].domid, s, infos)
    && IsWholePage(Ids(ws), live, ws[0].domid, s, infos)
    && MergedTo(Ids(ws), live, ws[0].domid, s, got, infos, p)
  }

  lemma SearchStarts(ws: seq<Watcher>, live: seq<DomInfo>, answers: nat)
    ensures |ws| == 0 ==> !SearchCompletes(ws, live, answers)
    ensures |ws| > 0 ==> OnWay(ws, live, ws[0].domid, 0, 0, answers, answers)
  {
  }

  lemma NoAnswer(ws: seq<Watcher>, live: seq<DomInfo>, domid: nat, s: nat, p: nat, answers: nat)
    requires OnWay(ws, live, domid, s, p, answers, 0)
    ensures !SearchCompletes(ws, live, answers)
  {
    hide From, AtPage, LastOnPage;
  }

  /** The next page. */
  lemma AskPage(ws: seq<Watcher>, live: seq<DomInfo>, domid: nat, s: nat, p: nat, answers: nat, left: nat, n: nat)
    requires OnWay(ws, live, domid, s, p, answers, left) && Sorted(Ids(ws)) && Ascending(live)
    requires n == if p < |ws| - 1 then PAGE else 1
    ensures OnPage(ws, live, s, 0, Page(live, domid, n), p)
  {
    hide AtPage, WillComplete, IsPage, IsWholePage, MergedTo, Page, From, Sorted, Ascending, SearchCompletes;
    PageIs(Ids(ws), live, ws[0].domid, domid, s, p, n);
    StartsMerged(Ids(ws), live, ws[0].domid, domid, s, Page(live, domid, n), p);
  }

  /** What comparing the next watcher with the current domain of the page says. */
  lemma PageStep(ws: seq<Watcher>, live: seq<DomInfo>, s: nat, got: nat, infos: seq<DomInfo>, p: nat)
    requires OnPage(ws, live, s, got, infos, p) && Sorted(Ids(ws)) && Ascending(live) && p < |ws|
    ensures |infos| == 0 || (got < |infos| && infos[got].domid > ws[p].domid) ==>
      IsDead(live, ws[p].domid) && OnPage(ws, live, s, got, infos, p + 1)
    ensures got < |infos| && infos[got].domid < ws[p].domid ==> OnPage(ws, live, s, got + 1, infos, p)
    ensures got < |infos| && infos[got].domid == ws[p].domid ==>
      && PresentSays(live, ws[p].domid, infos[got])
      && (infos[got].dying ==> IsDead(live, ws[p].domid))
      && OnPage(ws, live, s, got, infos, p + 1)
  {
    hide IsPage, IsWholePage, MergedTo, Sorted, Ascending, PresentSays, IsDead;
    NextId(Ids(ws), p);
    MergeStep(Ids(ws), live, ws[0].domid, s, got, infos, p);
  }

  /** A page that settles all watchers ends the search; the page after one that was used up starts with
      its last domain. */
  lemma PageUsedUp(ws: seq<Watcher>, live: seq<DomInfo>, domid: nat, s: nat, answers: nat, left: nat, got: nat,
                   infos: seq<DomInfo>, from: nat, p: nat)
    requires OnWay(ws, live, domid, s, from, answers, left)
    requires OnPage(ws, live, s, got, infos, p) && Sorted(Ids(ws)) && Ascending(live) && left > 0 && p <= |ws|
    ensures p == |ws| ==> SearchCompletes(ws, live, answers)
    ensures p < |ws| && got == |infos| > 0 ==>
      OnWay(ws, live, infos[|infos| - 1].domid, s + |infos| - 1, p, answers, left - 1)
  {
    hide IsWholePage, WillComplete, AtPage, Sorted, Ascending, SearchCompletes, From;
    if p == |ws| {
      EndsHere(Ids(ws), live, ws[0].domid, s, infos, left);
    } else if got == |infos| > 0 {
      GoesOn(Ids(ws), live, ws[0].domid, s, infos, p, left);
      NextPage(Ids(ws), live, ws[0].domid, s, infos, p);
    }
  }

  /** What the next page holds. */
  lemma PageIs(ids: seq<nat>, live: seq<DomInfo>, first: nat, domid: nat, s: nat, p: nat, n: nat)
    requires Sorted(ids) && Ascending(live) && AtPage(ids, live, first, domid, s, p)
    requires n == if p < |ids| - 1 then PAGE else 1
    ensures IsPage(live, first, s, Page(live, domid, n))
    ensures IsWholePage(ids, live, first, s, Page(live, domid, n))
  {
    hide Ascending, From, Sorted;
    NextId(ids, p);
  }

  lemma StartsMerged(ids: seq<nat>, live: seq<DomInfo>, first: nat, domid: nat, s: nat, infos: seq<DomInfo>, p: nat)
    requires Ascending(live) && AtPage(ids, live, first, domid, s, p) && IsPage(live, first, s, infos)
    ensures MergedTo(ids, live, first, s, 0, infos, p)
  {
    hide Ascending, From;
    if |infos| > 0 {
      FromAscends(live, first);
      Ascends(From(live, first), s, s + |infos| - 1);
    }
  }

  /** Without a further answer the search fails; a page that settles all watchers ends it. */
  lemma EndsHere(ids: seq<nat>, live: seq<DomInfo>, first: nat, s: nat, infos: seq<DomInfo>, answers: nat)
    ensures answers == 0 ==> !WillComplete(ids, live, first, s, answers)
    ensures answers > 0 && IsPage(live, first, s, infos) && IsWholePage(ids, live, first, s, infos) &&
      (|infos| > 0 ==> ids[|ids| - 1] <= infos[|infos| - 1].domid)
      ==> WillComplete(ids, live, first, s, answers)
  {
    hide From;
  }

  /** The page after one that was used up starts with its last domain. */
  lemma NextPage(ids: seq<nat>, live: seq<DomInfo>, first: nat, s: nat, infos: seq<DomInfo>, p: nat)
    requires Ascending(live) && p < |ids| && |infos| > 0 && IsWholePage(ids, live, first, s, infos)
    requires IsPage(live, first, s, infos) && MergedTo(ids, live, first, s, |infos|, infos, p)
    ensures AtPage(ids, live, first, infos[|infos| - 1].domid, s + |infos| - 1, p)
  {
    hide Ascending, From, LastOnPage;
    var all, next := From(live, first), s + |infos| - 1;
    assert infos[|infos| - 1] == all[next];
    FromAt(live, first, next);
  }

  lemma GoesOn(ids: seq<nat>, live: seq<DomInfo>, first: nat, s: nat, infos: seq<DomInfo>, p: nat, answers: nat)
    requires Sorted(ids) && p < |ids| && answers > 0
    requires |infos| > 0 && IsWholePage(ids, live, first, s, infos) && MergedTo(ids, live, first, s, |infos|, infos, p)
    ensures WillComplete(ids, live, first, s, answers)
        <==> WillComplete(ids, live, first, s + |infos| - 1, answers - 1)
  {
    hide From, Sorted;
    NextId(ids, p);
  }
}

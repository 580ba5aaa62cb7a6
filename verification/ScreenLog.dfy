/** What happens to the screen, and the on and off requests that follow from it.  The service asks for a
    notification when the screen goes on, when it goes off without a fade, and when a fade ends dark; a
    request to sleep leaves an off owed until one of them pays it. */
module ScreenLog {
  import opened PowerBits
  import N = NotificationQueue

  /** fails: the display driver reports an error; fading: the brightness has still to fade out. */
  datatype ScreenEvent =
    | Asleep
    | WentOn(fails: bool)
    | WentOff(fading: bool, reason: int, fails: bool)
    | FadedOut(reason: int, fails: bool)

  /** Going on, an off that is still owed comes first; nothing follows if the driver fails. */
  function OnNotices(owed: bool, fails: bool): seq<N.Notice> {
    var off, on := N.Notice(false, OFF_BECAUSE_OF_USER), N.Notice(true, -1);
    if fails then (if owed then [off] else [])
    else if owed then [off, on]
    else [on]
  }

  /** What an event announces. */
  function NoticesOf(owed: bool, e: ScreenEvent): seq<N.Notice> {
    match e
    case Asleep => []
    case WentOn(fails) => OnNotices(owed, fails)
    case WentOff(fading, reason, fails) => if fading || fails then [] else [N.Notice(false, reason)]
    case FadedOut(reason, fails) => if fails then [] else [N.Notice(false, reason)]
  }

  /** Every request carries the reason of its own event; an off that was owed is the user's. */
  lemma ReasonsAreTheirs(owed: bool, e: ScreenEvent, n: N.Notice)
    requires n in NoticesOf(owed, e)
    ensures n.on ==> e == WentOn(false) && n.why == -1
    ensures !n.on ==> match e
      case WentOn(_) => owed && n.why == 1
      case WentOff(fading, reason, fails) => !fading && !fails && n.why == reason
      case FadedOut(reason, fails) => !fails && n.why == reason
      case Asleep => false
  {
  }

  /** Whether an off is owed after an event. */
  function OwedAfter(owed: bool, e: ScreenEvent): bool {
    match e
    case Asleep => true
    case WentOn(_) => false
    case WentOff(fading, _, fails) => owed && (fading || fails)
    case FadedOut(_, fails) => owed && fails
  }

  function Owed(es: seq<ScreenEvent>): bool {
    if es == [] then false else OwedAfter(Owed(es[..|es| - 1]), es[|es| - 1])
  }

  /** Everything requested so far. */
  function Notices(es: seq<ScreenEvent>): seq<N.Notice> {
    if es == [] then []
    else Notices(es[..|es| - 1]) + NoticesOf(Owed(es[..|es| - 1]), es[|es| - 1])
  }

  /** Why the screen went off last, and 0 if it never has. */
  function OffReason(es: seq<ScreenEvent>): int {
    if es == [] then 0
    else
      match es[|es| - 1]
      case WentOff(_, reason, _) => reason
      case _ => OffReason(es[..|es| - 1])
  }

  /** Every fade ends with the reason of the change that the screen went off with. */
  ghost predicate FadesKeepTheirReason(es: seq<ScreenEvent>) {
    forall i :: 0 <= i < |es| && es[i].FadedOut? ==> es[i].reason == OffReason(es[..i])
  }

  lemma OneMore(es: seq<ScreenEvent>, e: ScreenEvent)
    ensures Owed(es + [e]) == OwedAfter(Owed(es), e)
    ensures Notices(es + [e]) == Notices(es) + NoticesOf(Owed(es), e)
    ensures OffReason(es + [e]) == if e.WentOff? then e.reason else OffReason(es)
    ensures FadesKeepTheirReason(es) && (e.FadedOut? ==> e.reason == OffReason(es)) ==> FadesKeepTheirReason(es + [e])
  {
    var more := es + [e];
    assert more[..|es|] == es;
    if FadesKeepTheirReason(es) && (e.FadedOut? ==> e.reason == OffReason(es)) {
      forall i | 0 <= i < |more| && more[i].FadedOut? ensures more[i].reason == OffReason(more[..i]) {
        if i < |es| { assert more[..i] == es[..i]; }
      }
    }
  }

  /** Whether the screen was last said to be on. */
  function ToldOn(es: seq<ScreenEvent>): bool {
    if es == [] then false
    else
      var init, e := es[..|es| - 1], es[|es| - 1];
      match e
      case Asleep => ToldOn(init)
      case WentOn(fails) => if !fails then true else if Owed(init) then false else ToldOn(init)
      case WentOff(fading, _, fails) => if fading || fails then ToldOn(init) else false
      case FadedOut(_, fails) => if fails then ToldOn(init) else false
  }

  /** Whether an event fits what was said last: going on finds an off still owed exactly if the screen was said
      to be on; an off that is announced, at once or at the end of a fade, finds that it was. */
  predicate Fits(owed: bool, toldOn: bool, e: ScreenEvent) {
    match e
    case Asleep => true
    case WentOn(fails) => if owed then toldOn else fails || !toldOn
    case WentOff(fading, _, fails) => fading || fails || toldOn
    case FadedOut(_, fails) => fails || toldOn
  }

  ghost predicate AllFit(es: seq<ScreenEvent>) {
    forall i :: 0 <= i < |es| ==> Fits(Owed(es[..i]), ToldOn(es[..i]), es[i])
  }

  /** One event keeps the requests alternating if and only if it fits. */
  lemma EventAlternatesIff(s: seq<N.Notice>, owed: bool, e: ScreenEvent)
    requires N.Alternates(s, false)
    ensures N.Alternates(s + NoticesOf(owed, e), false) <==> Fits(owed, N.LastOf(s, false), e)
  {
    var ns := NoticesOf(owed, e);
    if |ns| == 0 {
      assert s + ns == s;
    } else {
      N.AlternatesAppendIff(s, ns[0], false);
      if |ns| == 1 {
        assert s + ns == s + [ns[0]];
      } else {
        N.AlternatesAppendIff(s + [ns[0]], ns[1], false);
        assert s + ns == s + [ns[0]] + [ns[1]];
      }
    }
  }

  lemma {:induction false} ToldOnIsLast(es: seq<ScreenEvent>)
    ensures N.LastOf(Notices(es), false) == ToldOn(es)
  {
    if es != [] { ToldOnIsLast(es[..|es| - 1]); }
  }

  lemma PrefixAlternates(s: seq<N.Notice>, ns: seq<N.Notice>)
    requires N.Alternates(s + ns, false)
    ensures N.Alternates(s, false)
  {
    forall i | 0 <= i < |s| ensures s[i].on != N.LastOf(s[..i], false) {
      assert (s + ns)[i].on != N.LastOf((s + ns)[..i], false);
      assert (s + ns)[..i] == s[..i];
    }
  }

  lemma AllFitSplit(es: seq<ScreenEvent>)
    requires es != []
    ensures var init := es[..|es| - 1];
      AllFit(es) <==> AllFit(init) && Fits(Owed(init), ToldOn(init), es[|es| - 1])
  {
    var init := es[..|es| - 1];
    assert forall i :: 0 <= i < |init| ==> es[..i] == init[..i] && es[i] == init[i];
    if AllFit(es) {
      forall i | 0 <= i < |init| ensures Fits(Owed(init[..i]), ToldOn(init[..i]), init[i]) {
        assert Fits(Owed(es[..i]), ToldOn(es[..i]), es[i]);
      }
    }
  }

  /** All requests of a run alternate if and only if every event of the run fits what was said before it. */
  lemma {:induction false} RequestsAlternateIff(es: seq<ScreenEvent>)
    ensures N.Alternates(Notices(es), false) <==> AllFit(es)
  {
    if es != [] {
      var init, last := es[..|es| - 1], es[|es| - 1];
      RequestsAlternateIff(init);
      AllFitSplit(es);
      ToldOnIsLast(init);
      if N.Alternates(Notices(es), false) { PrefixAlternates(Notices(init), NoticesOf(Owed(init), last)); }
      if N.Alternates(Notices(init), false) { EventAlternatesIff(Notices(init), Owed(init), last); }
    }
  }

  /** The events of a change of the screen bit: none if it stays, else one. */
  function Switching(was: bool, on: bool, fading: bool, reason: int, onFails: bool, offFails: bool)
    : (es: seq<ScreenEvent>)
    ensures |es| <= 1
  {
    if on && !was then [WentOn(onFails)]
    else if !on && was then [WentOff(fading, reason, offFails)]
    else []
  }

  /** What none or one event announces. */
  function Announced(owed: bool, es: seq<ScreenEvent>): seq<N.Notice> {
    if es == [] then [] else NoticesOf(owed, es[0])
  }

  lemma ThreeEvents(a: ScreenEvent, b: ScreenEvent, c: ScreenEvent)
    ensures var owed1 := OwedAfter(false, a); var owed2 := OwedAfter(owed1, b);
      && Owed([a, b]) == owed2
      && Notices([a, b, c]) == NoticesOf(false, a) + NoticesOf(owed1, b) + NoticesOf(owed2, c)
  {
    hide NoticesOf, OwedAfter, Notices, Owed;
    OneMore([a, b], c);
    assert [a, b] + [c] == [a, b, c];
    TwoEvents(a, b);
  }

  lemma TwoEvents(a: ScreenEvent, b: ScreenEvent)
    ensures Owed([a, b]) == OwedAfter(OwedAfter(false, a), b)
    ensures Notices([a, b]) == NoticesOf(false, a) + NoticesOf(OwedAfter(false, a), b)
  {
    hide NoticesOf, OwedAfter;
    OneMore([], a);
    OneMore([a], b);
    assert [] + [a] == [a] && [a] + [b] == [a, b];
  }

  lemma LastFits(a: ScreenEvent, b: ScreenEvent, c: ScreenEvent)
    requires AllFit([a, b, c])
    ensures Fits(Owed([a, b]), ToldOn([a, b]), c)
  {
    hide Fits, ToldOn, Owed;
    assert [a, b, c][..2] == [a, b];
  }

  /** A run of the failing kind: on, off with a fade, and on again before the fade has ended. */
  lemma WakingDuringAFadeDoesNotFit()
    ensures var es := [WentOn(false), WentOff(true, OFF_BECAUSE_OF_TIMEOUT, false), WentOn(false)];
      !AllFit(es) && Notices(es) == [N.Notice(true, -1), N.Notice(true, -1)]
  {
    var a, b := WentOn(false), WentOff(true, OFF_BECAUSE_OF_TIMEOUT, false);
    ThreeEvents(a, b, a);
    if AllFit([a, b, a]) { LastFits(a, b, a); }
    assert [a, b][..1] == [a] && [a][..0] == [];
    assert ToldOn([a]) && ToldOn([a, b]);
  }

  /** Another: the light of a screen that stays on is taken down to zero twice. */
  lemma DarkTwiceDoesNotFit(reason: int)
    ensures var es := [WentOn(false), FadedOut(reason, false), FadedOut(reason, false)];
      !AllFit(es) && Notices(es) == [N.Notice(true, -1), N.Notice(false, reason), N.Notice(false, reason)]
  {
    var a, b := WentOn(false), FadedOut(reason, false);
    ThreeEvents(a, b, b);
    if AllFit([a, b, b]) { LastFits(a, b, b); }
    assert [a, b][..1] == [a] && [a][..0] == [];
  }
}

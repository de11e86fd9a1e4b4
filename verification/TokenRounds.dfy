/** When a round of the runner starts its loop, how it ends, and which token a
    loop leaves stored. */
module TokenRounds {
  import opened Common
  import opened TokenRunner

  /** What is stored once others have written these tokens in turn. */
  function StoredAfter(stored: Token, tokens: seq<Token>): Token {
    if tokens == [] then stored else tokens[|tokens| - 1]
  }

  lemma {:induction false} OthersLeaveTheirLast(a: Account, tokens: seq<Token>)
    ensures OthersWrote(a, tokens).stored == StoredAfter(a.stored, tokens)
    ensures OthersWrote(a, tokens).loops == a.loops
  {
    if tokens != [] {
      OthersLeaveTheirLast(a, Front(tokens));
    }
  }

  /** The loop is entered exactly when the store answers and holds a token, or
      held none and holds one once consent was given. It is entered with that
      token, and counted once. */
  lemma LoopIsEnteredExactlyWhen(a: Account, r: Round)
    ensures var o := RunRound(a, r);
            var first := StoredAfter(a.stored, r.before);
            var second := StoredAfter(first, r.during);
            && (o.entered.Some? <==>
                  r.read.Answered? && (first != "" || (r.await.Consented? && r.reread.Answered? && second != "")))
            && (o.entered.Some? ==> o.entered == Some(if first != "" then first else second))
            && o.account.loops == a.loops + if o.entered.Some? then 1 else 0
  {
    var a1 := OthersWrote(a, r.before);
    OthersLeaveTheirLast(a, r.before);
    OthersLeaveTheirLast(a1, r.during);
    var ready := Obtain(a, r);
    if ready.token.Some? {
      LifeKeepsLoops(StartOf(a, r), r.life);
      OthersLeaveTheirLast(Live(StartOf(a, r), r.life).account, r.untilClear);
    }
  }

  lemma {:induction false} LifeKeepsLoops(l: Living, events: seq<LoopEvent>)
    ensures Live(l, events).account.loops == l.account.loops
  {
    if events != [] {
      LifeKeepsLoops(l, Front(events));
    }
  }

  /** A token is refused exactly when the loop was entered, did not die and
      ended in a revocation. The runner goes round again exactly when then the
      clear is acknowledged, and the stored token is erased exactly when the
      clear lands and it is the one held. */
  lemma RoundEndsExactlyAs(a: Account, r: Round)
    ensures var o := RunRound(a, r);
            && (o.refused.Some? <==> o.entered.Some? && r.end.Revoked? && !Live(StartOf(a, r), r.life).died)
            && (o.held.Some? <==> o.refused.Some?)
            && (o.next.Again? <==> o.refused.Some? && r.clear.Landed?)
            && (o.erased.Some? <==>
                  o.refused.Some? && r.clear.Lands()
                  && StoredAfter(Live(StartOf(a, r), r.life).account.stored, r.untilClear) == o.held.value)
  {
    if Obtain(a, r).token.Some? {
      OthersLeaveTheirLast(Live(StartOf(a, r), r.life).account, r.untilClear);
    }
  }

  /** One renewal: a reply without a refresh token keeps the one presented, and
      only a token other than the held one is written. */
  lemma RenewalWritesOnlyNews(l: Living, refresh: Token, persist: Write)
    requires !l.died
    ensures var l' := LiveOne(l, Renewal(refresh, persist));
            var token := if refresh == "" then l.engine.presented else refresh;
            var news := token != "" && token != l.engine.last;
            && l'.engine.presented == token && (l'.died <==> news && persist.Died())
            && l'.account.stored == (if news && persist.Lands() then token else l.account.stored)
            && l'.engine.last == (if news && persist.Landed? then token else l.engine.last)
            && l'.account.others == l.account.others && l'.account.loops == l.account.loops
  {
  }

  /** The newest refresh token among the renewals, or the first one. */
  function NewestIssued(first: Token, events: seq<LoopEvent>): Token {
    if events == [] then first
    else match Last(events)
      case OtherWrite(_) => NewestIssued(first, Front(events))
      case Renewal(refresh, _) => if refresh == "" then NewestIssued(first, Front(events)) else refresh
  }

  predicate AllStored(events: seq<LoopEvent>) {
    forall i :: 0 <= i < |events| ==> events[i].Renewal? && events[i].persist.Landed?
  }

  /** While nobody else writes and every store write is acknowledged, the token
      stored, presented and held is the newest Spotify issued. */
  lemma {:induction false} NewestIssuedIsStored(l: Living, events: seq<LoopEvent>)
    requires !l.died && l.account.stored == l.engine.presented == l.engine.last != "" && AllStored(events)
    ensures var l', newest := Live(l, events), NewestIssued(l.engine.last, events);
            !l'.died && l'.account.stored == l'.engine.presented == l'.engine.last == newest != ""
  {
    if events != [] {
      assert Last(events) == events[|events| - 1];
      NewestIssuedIsStored(l, Front(events));
    }
  }
}

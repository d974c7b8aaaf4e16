/**
 * Commands over whole runs: what became of every command the UI issued, and that the messages
 * accepted for a connection are exactly the commands accepted for it, in order.
 */
module FleetCommands {
  import opened Prelude
  import opened Opamp
  import opened AgentRecord
  import opened MockAgent
  import opened Translate
  import opened Link
  import opened Fleet

  /** Under way, refused at one of its three steps, or accepted by a connection's push channel. */
  datatype Fate = Pending | Turned | Taken(link: nat)

  datatype Entry = Entry(target: string, command: Command, fate: Fate)

  ghost function Close(ledger: seq<Entry>, fate: Fate): seq<Entry> {
    if ledger == [] then []
    else ledger[..|ledger| - 1] + [ledger[|ledger| - 1].(fate := fate)]
  }

  ghost function Book(s: State, a: Action, ledger: seq<Entry>): seq<Entry>
    requires Enabled(s, a)
  {
    match a
    case UiCommand(target, command) =>
      ledger + [Entry(target, command, if target in s.translator.uids then Pending else Turned)]
    case UiLookup => if s.ui.uid in s.registry then ledger else Close(ledger, Turned)
    case UiTrySend => Close(ledger, if CanPush(s.links[s.ui.link]) then Taken(s.ui.link) else Turned)
    case _ => ledger
  }

  /** Every command issued so far and what became of it. */
  ghost function Ledger(cfg: Settings, acts: seq<Action>): seq<Entry> {
    if acts == [] then [] else
    var before, a := Run(cfg, acts[..|acts| - 1]), acts[|acts| - 1];
    var ledger := Ledger(cfg, acts[..|acts| - 1]);
    if before.Some? && Enabled(before.value, a) then Book(before.value, a, ledger) else ledger
  }

  /** The commands that connection i accepted. */
  ghost function TakenBy(ledger: seq<Entry>, i: nat): seq<Command> {
    if ledger == [] then [] else
    var e := ledger[|ledger| - 1];
    TakenBy(ledger[..|ledger| - 1], i) + if e.fate == Taken(i) then [e.command] else []
  }

  lemma TakenBySnoc(ledger: seq<Entry>, e: Entry, i: nat)
    ensures TakenBy(ledger + [e], i) == TakenBy(ledger, i) + if e.fate == Taken(i) then [e.command] else []
  {
    assert (ledger + [e])[..|ledger|] == ledger;
  }

  // ----- the invariant ---------------------------------------------------------------------------------

  /** The connection's pushes are these commands, addressed to its UID. */
  ghost predicate Carries(cfg: Settings, l: Link, commands: seq<Command>) {
    && |l.push.sent| == |commands|
    && (commands != [] ==> l.uid.Some?)
    && forall k :: 0 <= k < |commands| ==> l.push.sent[k] == MessageFor(cfg, l.uid.value, commands[k])
  }

  /** An entry that was taken was taken by a connection registered under its target. */
  ghost predicate WellTaken(s: State, e: Entry) {
    e.fate.Taken? ==>
      && e.fate.link < |s.links| && s.links[e.fate.link].uid.Some?
      && UidText(s.links[e.fate.link].uid.value) == e.target
  }

  /** What the UI holds is the message of the entry under way. */
  ghost predicate UnderWay(cfg: Settings, s: State, ledger: seq<Entry>) {
    && (s.ui.Ready? ==> forall k :: 0 <= k < |ledger| ==> !ledger[k].fate.Pending?)
    && (!s.ui.Ready? ==>
          && ledger != [] && ledger[|ledger| - 1].fate.Pending?
          && (forall k :: 0 <= k < |ledger| - 1 ==> !ledger[k].fate.Pending?)
          && var e := ledger[|ledger| - 1];
          match s.ui
          case Routed(uid, msg) => UidText(uid) == e.target && msg == MessageFor(cfg, uid, e.command)
          case Holding(i, msg) =>
            && i < |s.links| && s.links[i].uid.Some?
            && UidText(s.links[i].uid.value) == e.target && msg == MessageFor(cfg, s.links[i].uid.value, e.command)
          case Ready => true)
  }

  ghost predicate LedgerInv(cfg: Settings, s: State, ledger: seq<Entry>) {
    && UnderWay(cfg, s, ledger)
    && (forall k :: 0 <= k < |ledger| ==> WellTaken(s, ledger[k]))
    && forall i :: 0 <= i < |s.links| ==> Carries(cfg, s.links[i], TakenBy(ledger, i))
  }

  lemma StepKeepsPushes(cfg: Settings, l: Link, step: LinkAction)
    requires CanStep(l, step)
    ensures LinkStep(cfg, l, step).push.sent == l.push.sent
    ensures l.uid.Some? ==> LinkStep(cfg, l, step).uid == l.uid
  {
    hide Reply, FullStatus, HealthReport, ConfigApplied, Answer, Received, Resolve;
  }

  lemma {:induction false} NoneTaken(ledger: seq<Entry>, i: nat)
    requires forall k :: 0 <= k < |ledger| ==> ledger[k].fate != Taken(i)
    ensures TakenBy(ledger, i) == []
  {
    if ledger != [] { NoneTaken(ledger[..|ledger| - 1], i); }
  }

  /** Steps that leave UIDs, pushes and the command under way alone. */
  lemma SameLedger(cfg: Settings, s: State, s': State, ledger: seq<Entry>)
    requires LedgerInv(cfg, s, ledger) && s'.ui == s.ui && |s.links| <= |s'.links|
    requires forall i :: 0 <= i < |s.links| ==>
      s'.links[i].push.sent == s.links[i].push.sent && (s.links[i].uid.Some? ==> s'.links[i].uid == s.links[i].uid)
    requires forall i :: |s.links| <= i < |s'.links| ==> s'.links[i].push.sent == []
    ensures LedgerInv(cfg, s', ledger)
  {
    hide TakenBy, MessageFor, UidText;
    forall i | |s.links| <= i < |s'.links| ensures TakenBy(ledger, i) == [] {
      forall k | 0 <= k < |ledger| ensures ledger[k].fate != Taken(i) { assert WellTaken(s, ledger[k]); }
      NoneTaken(ledger, i);
    }
    forall k | 0 <= k < |ledger| ensures WellTaken(s', ledger[k]) { assert WellTaken(s, ledger[k]); }
  }

  lemma IssueInv(cfg: Settings, s: State, target: string, command: Command, ledger: seq<Entry>)
    requires Inv(cfg, s) && LedgerInv(cfg, s, ledger) && s.ui.Ready?
    ensures LedgerInv(cfg, Apply(cfg, s, UiCommand(target, command)), Book(s, UiCommand(target, command), ledger))
  {
    hide TakenBy, MessageFor, UidText, LinksInv, Carries, Translated, Showing;
    var s' := Apply(cfg, s, UiCommand(target, command));
    var e := Entry(target, command, if target in s.translator.uids then Pending else Turned);
    TranslatedValid(s.events.sent[..s.events.taken]);
    forall i | 0 <= i < |s.links| ensures Carries(cfg, s'.links[i], TakenBy(ledger + [e], i)) {
      TakenBySnoc(ledger, e, i);
      assert TakenBy(ledger, i) + [] == TakenBy(ledger, i);
    }
    forall k | 0 <= k < |ledger + [e]| ensures WellTaken(s', (ledger + [e])[k]) {
      if k < |ledger| { assert WellTaken(s, ledger[k]); }
    }
  }

  lemma CloseTaken(ledger: seq<Entry>, fate: Fate, i: nat)
    requires ledger != [] && ledger[|ledger| - 1].fate.Pending?
    ensures TakenBy(Close(ledger, fate), i) ==
      TakenBy(ledger, i) + if fate == Taken(i) then [ledger[|ledger| - 1].command] else []
  {
    var most, e := ledger[..|ledger| - 1], ledger[|ledger| - 1];
    TakenBySnoc(most, e.(fate := fate), i);
    assert ledger == most + [e];
    TakenBySnoc(most, e, i);
  }

  lemma TurnedInv(cfg: Settings, s: State, s': State, ledger: seq<Entry>)
    requires LedgerInv(cfg, s, ledger) && !s.ui.Ready? && s' == s.(ui := Ready)
    ensures LedgerInv(cfg, s', Close(ledger, Turned))
  {
    hide TakenBy, MessageFor, UidText, Carries;
    forall i | 0 <= i < |s.links| ensures Carries(cfg, s'.links[i], TakenBy(Close(ledger, Turned), i)) {
      CloseTaken(ledger, Turned, i);
      assert TakenBy(ledger, i) + [] == TakenBy(ledger, i);
    }
    forall k | 0 <= k < |ledger| ensures WellTaken(s', Close(ledger, Turned)[k]) { assert WellTaken(s, ledger[k]); }
  }

  lemma CarriesMore(cfg: Settings, l: Link, commands: seq<Command>, command: Command)
    requires Carries(cfg, l, commands) && l.uid.Some?
    ensures Carries(cfg, Pushed(l, MessageFor(cfg, l.uid.value, command)), commands + [command])
  {
    hide MessageFor;
  }

  lemma TakenInv(cfg: Settings, s: State, ledger: seq<Entry>)
    requires LedgerInv(cfg, s, ledger) && Enabled(s, UiTrySend) && CanPush(s.links[s.ui.link])
    ensures LedgerInv(cfg, Apply(cfg, s, UiTrySend), Close(ledger, Taken(s.ui.link)))
  {
    hide TakenBy, MessageFor, UidText, Carries, CanPush;
    var s', j, closed := Apply(cfg, s, UiTrySend), s.ui.link, Close(ledger, Taken(s.ui.link));
    var e := ledger[|ledger| - 1];
    forall i | 0 <= i < |s.links| ensures Carries(cfg, s'.links[i], TakenBy(closed, i)) {
      CloseTaken(ledger, Taken(j), i);
      if i == j {
        CarriesMore(cfg, s.links[j], TakenBy(ledger, j), e.command);
      } else {
        assert TakenBy(ledger, i) + [] == TakenBy(ledger, i);
      }
    }
    forall k | 0 <= k < |ledger| ensures WellTaken(s', closed[k]) {
      if k < |ledger| - 1 { assert closed[k] == ledger[k] && WellTaken(s, ledger[k]); }
    }
  }

  lemma LookupInv(cfg: Settings, s: State, ledger: seq<Entry>)
    requires Routing(cfg, s) && LedgerInv(cfg, s, ledger) && Enabled(s, UiLookup)
    ensures LedgerInv(cfg, Apply(cfg, s, UiLookup), Book(s, UiLookup, ledger))
  {
    hide TakenBy, MessageFor, UidText, Carries, WellTaken, Close, IsCommand;
    var s' := Apply(cfg, s, UiLookup);
    if s.ui.uid in s.registry {
      forall k | 0 <= k < |ledger| ensures WellTaken(s', ledger[k]) { SameTaken(s, s', ledger[k]); }
    } else {
      TurnedInv(cfg, s, s', ledger);
    }
  }

  lemma SameTaken(s: State, s': State, e: Entry)
    requires WellTaken(s, e) && s'.links == s.links
    ensures WellTaken(s', e)
  {
  }

  lemma LedgerStep(cfg: Settings, s: State, a: Action, ledger: seq<Entry>)
    requires Inv(cfg, s) && LedgerInv(cfg, s, ledger) && Enabled(s, a)
    ensures LedgerInv(cfg, Apply(cfg, s, a), Book(s, a, ledger))
  {
    hide LedgerInv, LinkStep, CanStep, RegistryAfter, Merge, UidText, MessageFor, Inv, Close, CanPush;
    var s' := Apply(cfg, s, a);
    match a
    case UiCommand(target, command) => IssueInv(cfg, s, target, command, ledger);
    case UiLookup =>
      InvRoutes(cfg, s);
      LookupInv(cfg, s, ledger);
    case UiTrySend =>
      if CanPush(s.links[s.ui.link]) { TakenInv(cfg, s, ledger); } else { TurnedInv(cfg, s, s', ledger); }
    case OnLink(i, step) =>
      StepKeepsPushes(cfg, s.links[i], step);
      SameLedger(cfg, s, s', ledger);
    case _ => SameLedger(cfg, s, s', ledger);
  }

  lemma InvRoutes(cfg: Settings, s: State)
    requires Inv(cfg, s)
    ensures Routing(cfg, s)
  {
  }

  lemma NothingIssued(cfg: Settings)
    ensures LedgerInv(cfg, START, [])
  {
  }

  lemma {:induction false} LedgerRun(cfg: Settings, acts: seq<Action>)
    requires Run(cfg, acts).Some?
    ensures LedgerInv(cfg, Run(cfg, acts).value, Ledger(cfg, acts))
  {
    hide Enabled, Apply, LedgerInv, Inv, Book;
    if acts == [] {
      NothingIssued(cfg);
    } else {
      var most := acts[..|acts| - 1];
      LedgerRun(cfg, most);
      RunInv(cfg, most);
      LedgerStep(cfg, Run(cfg, most).value, acts[|acts| - 1], Ledger(cfg, most));
    }
  }

  // ----- what it says ------------------------------------------------------------------------------------

  /**
   * Conservation of commands, with no assumption on UIDs: what a connection's push channel has
   * accepted is exactly the commands taken by it, in the order they were issued, each
   * issued for the text of the connection's UID.
   */
  lemma PushesAreCommands(cfg: Settings, acts: seq<Action>, i: nat)
    requires Run(cfg, acts).Some? && i < |Run(cfg, acts).value.links|
    ensures
      var l, ledger := Run(cfg, acts).value.links[i], Ledger(cfg, acts);
      && |l.push.sent| == |TakenBy(ledger, i)|
      && (forall k :: 0 <= k < |l.push.sent| ==>
            l.uid.Some? && l.push.sent[k] == MessageFor(cfg, l.uid.value, TakenBy(ledger, i)[k]))
      && (forall n :: 0 <= n < |ledger| && ledger[n].fate == Taken(i) ==>
            l.uid.Some? && ledger[n].target == UidText(l.uid.value))
  {
    hide TakenBy, MessageFor, UidText, UnderWay;
    LedgerRun(cfg, acts);
    var s, ledger := Run(cfg, acts).value, Ledger(cfg, acts);
    assert Carries(cfg, s.links[i], TakenBy(ledger, i));
    forall n | 0 <= n < |ledger| && ledger[n].fate == Taken(i)
      ensures s.links[i].uid.Some? && ledger[n].target == UidText(s.links[i].uid.value)
    {
      assert WellTaken(s, ledger[n]);
    }
  }

  /** The text of the last config among these commands. */
  ghost function LastPushed(commands: seq<Command>, base: string): string {
    if commands == [] then base
    else if commands[|commands| - 1].PushConfig? then commands[|commands| - 1].yaml
    else LastPushed(commands[..|commands| - 1], base)
  }

  ghost predicate AnyPushed(commands: seq<Command>) {
    exists k :: 0 <= k < |commands| && commands[k].PushConfig?
  }

  lemma {:induction false} ConfigsOfCommands(cfg: Settings, uid: Uid, sent: seq<ServerToAgent>, commands: seq<Command>, base: string)
    requires |sent| == |commands|
    requires forall k :: 0 <= k < |sent| ==> sent[k] == MessageFor(cfg, uid, commands[k])
    ensures LastConfig(sent, base) == LastPushed(commands, base)
    ensures AnyConfig(sent) <==> AnyPushed(commands)
  {
    if sent != [] {
      var last := commands[|commands| - 1];
      var most, mostSent := commands[..|commands| - 1], sent[..|sent| - 1];
      ConfigsOfCommands(cfg, uid, mostSent, most, base);
      assert sent == mostSent + [sent[|sent| - 1]] && commands == most + [last];
      ReceivedSnoc(mostSent, sent[|sent| - 1], base);
      AnyPushedSnoc(most, last);
      if last.PushConfig? { OfferIsCommand(cfg, uid, last.yaml); }
    }
  }

  lemma AnyPushedSnoc(commands: seq<Command>, last: Command)
    ensures AnyPushed(commands + [last]) <==> AnyPushed(commands) || last.PushConfig?
  {
    var all := commands + [last];
    if k :| 0 <= k < |commands| && commands[k].PushConfig? { assert all[k].PushConfig?; }
    if last.PushConfig? { assert all[|commands|].PushConfig?; }
  }
}

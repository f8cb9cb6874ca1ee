/** The alert panel: threshold rules over the sensor metrics, the
    notifications they raise, and the handlers that edit both lists. */
module Alerts {
  import opened Wrappers
  import opened Text
  import opened Collections
  import opened ThingSpeakData

  datatype MetricType = Aqi | Temperature | Humidity | Co2 | Nh3 | Co
  datatype Condition = Above | Below
  datatype Severity = Info | Warning | Critical

  datatype Rule = Rule(
    id: string,
    name: string,
    kind: MetricType,
    condition: Condition,
    threshold: real,
    enabled: bool,
    severity: Severity)

  /** What a notification's text says: the metric, the rule's condition and
      threshold, and the value that crossed it. */
  datatype Message = Message(metricName: string, condition: Condition, threshold: real, value: real)

  /** A notification; `timestamp` is in milliseconds since the epoch. */
  datatype Notification = Notification(
    id: string,
    message: Message,
    kind: MetricType,
    severity: Severity,
    timestamp: int,
    read: bool)

  datatype Contact = Contact(email: string, phone: string, emailVerified: bool, phoneVerified: bool)

  /** The new-rule form; a field the form left unset is `None`. */
  datatype Draft = Draft(
    name: Option<string>,
    kind: Option<MetricType>,
    condition: Option<Condition>,
    threshold: Option<real>,
    severity: Option<Severity>)

  /** The window within which a second notification of a type is held back. */
  const Window: int := 300000

  /** The four rules the panel starts with. */
  const DefaultRules: seq<Rule> := [
    Rule("1", "High AQI Alert", Aqi, Above, 150.0, true, Critical),
    Rule("2", "High Temperature", Temperature, Above, 35.0, true, Warning),
    Rule("3", "High CO2 Level", Co2, Above, 1000.0, true, Warning),
    Rule("4", "High CO Level", Co, Above, 50.0, true, Critical)]

  /** The metric a rule type reads: the `nh3` rule reads the PM2.5 slot and
      the `co` rule the stress slot, where the sensor's readings are shown. */
  function ValueFor(m: Metrics, kind: MetricType): real {
    match kind
    case Aqi => m.aqi
    case Temperature => m.temperature
    case Humidity => m.humidity
    case Co2 => m.co2
    case Nh3 => m.pm25
    case Co => m.stress
  }

  function MetricName(kind: MetricType): string {
    match kind
    case Aqi => "Air Quality Index"
    case Temperature => "Temperature"
    case Humidity => "Humidity"
    case Co2 => "CO2 Level"
    case Nh3 => "NH3 Level"
    case Co => "CO Level"
  }

  /** `shouldAlert`. */
  predicate ShouldAlert(rule: Rule, value: real) {
    (rule.condition == Above && value > rule.threshold) || (rule.condition == Below && value < rule.threshold)
  }

  /** The comparison is strict on the rule's side of the threshold: a value
      equal to the threshold never alerts, and a value on the other side
      never does either. */
  lemma ShouldAlertSides(rule: Rule, value: real)
    ensures value == rule.threshold ==> !ShouldAlert(rule, value)
    ensures rule.condition == Above ==> (ShouldAlert(rule, value) <==> value > rule.threshold)
    ensures rule.condition == Below ==> (ShouldAlert(rule, value) <==> value < rule.threshold)
  {
  }

  predicate Verified(contact: Contact) {
    contact.emailVerified || contact.phoneVerified
  }

  /** `notifications.find(...)`: a notification of this type newer than
      five minutes before `now`. */
  predicate Recent(notifications: seq<Notification>, kind: MetricType, now: int) {
    exists i :: 0 <= i < |notifications| && notifications[i].kind == kind && notifications[i].timestamp > now - Window
  }

  /** One rule's turn in the `forEach`: it is enabled, its metric is on the
      alerting side, and the snapshot holds no recent notification of its
      type. */
  predicate Triggers(rule: Rule, m: Metrics, snapshot: seq<Notification>, now: int) {
    rule.enabled && ShouldAlert(rule, ValueFor(m, rule.kind)) && !Recent(snapshot, rule.kind, now)
  }

  function NotificationFor(rule: Rule, m: Metrics, now: int): Notification {
    Notification(
      IntToDecimal(now),
      Message(MetricName(rule.kind), rule.condition, rule.threshold, ValueFor(m, rule.kind)),
      rule.kind, rule.severity, now, false)
  }

  /** What one rule adds at the front of the list. */
  function RaisedBy(rule: Rule, m: Metrics, snapshot: seq<Notification>, now: int): seq<Notification> {
    if Triggers(rule, m, snapshot, now) then [NotificationFor(rule, m, now)] else []
  }

  /** The notifications one pass over the rules adds, newest first: each
      firing rule's notification goes in front of those of the rules before
      it, so there is at most one per rule. */
  function Fired(rules: seq<Rule>, m: Metrics, snapshot: seq<Notification>, now: int): (r: seq<Notification>)
    ensures |r| <= |rules|
  {
    if rules == [] then []
    else RaisedBy(rules[|rules| - 1], m, snapshot, now) + Fired(rules[..|rules| - 1], m, snapshot, now)
  }

  /** One more rule's turn puts what it raises in front of the list. */
  lemma FiredStep(rules: seq<Rule>, i: int, m: Metrics, snapshot: seq<Notification>, now: int, ns: seq<Notification>)
    requires 0 <= i < |rules|
    requires ns == Fired(rules[..i], m, snapshot, now) + snapshot
    ensures Fired(rules[..i + 1], m, snapshot, now) + snapshot == RaisedBy(rules[i], m, snapshot, now) + ns
  {
    var upTo := rules[..i + 1];
    assert upTo != [] && upTo[..i] == rules[..i] && upTo[i] == rules[i] && |upTo| - 1 == i;
    var raised, before := RaisedBy(rules[i], m, snapshot, now), Fired(rules[..i], m, snapshot, now);
    assert Fired(upTo, m, snapshot, now) == raised + before;
    assert (raised + before) + snapshot == raised + (before + snapshot);
  }

  /** A notification is raised exactly for each rule that triggers, and
      it carries that rule's type and severity and the value read. */
  lemma {:induction false} FiredMembers(rules: seq<Rule>, m: Metrics, snapshot: seq<Notification>, now: int, n: Notification)
    ensures n in Fired(rules, m, snapshot, now) <==>
      exists i :: 0 <= i < |rules| && Triggers(rules[i], m, snapshot, now) && n == NotificationFor(rules[i], m, now)
  {
    if rules != [] {
      var init := rules[..|rules| - 1];
      FiredMembers(init, m, snapshot, now, n);
      if exists i :: 0 <= i < |rules| && Triggers(rules[i], m, snapshot, now) && n == NotificationFor(rules[i], m, now) {
        var i :| 0 <= i < |rules| && Triggers(rules[i], m, snapshot, now) && n == NotificationFor(rules[i], m, now);
        if i < |init| {
          assert init[i] == rules[i];
        }
      }
      if n in Fired(init, m, snapshot, now) {
        var i :| 0 <= i < |init| && Triggers(init[i], m, snapshot, now) && n == NotificationFor(init[i], m, now);
        assert rules[i] == init[i];
      }
    }
  }

  /** Every notification a pass raises is unread, stamped `now` (its id is
      the same time as text), and of a type with no recent notification in
      the snapshot. */
  lemma FiredFacts(rules: seq<Rule>, m: Metrics, snapshot: seq<Notification>, now: int)
    ensures forall n :: n in Fired(rules, m, snapshot, now) ==>
      !n.read && n.timestamp == now && n.id == IntToDecimal(now) && !Recent(snapshot, n.kind, now)
  {
    forall n | n in Fired(rules, m, snapshot, now)
      ensures !n.read && n.timestamp == now && n.id == IntToDecimal(now) && !Recent(snapshot, n.kind, now)
    {
      FiredMembers(rules, m, snapshot, now, n);
    }
  }

  /** A type that already has a notification in the last five minutes gets
      no new one. */
  lemma NoRepeat(rules: seq<Rule>, m: Metrics, snapshot: seq<Notification>, now: int, kind: MetricType)
    requires Recent(snapshot, kind, now)
    ensures forall n :: n in Fired(rules, m, snapshot, now) ==> n.kind != kind
  {
    FiredFacts(rules, m, snapshot, now);
  }

  /** With every rule disabled, a pass raises nothing. */
  lemma DisabledSilent(rules: seq<Rule>, m: Metrics, snapshot: seq<Notification>, now: int)
    requires forall i :: 0 <= i < |rules| ==> !rules[i].enabled
    ensures Fired(rules, m, snapshot, now) == []
  {
    if Fired(rules, m, snapshot, now) != [] {
      var n := Fired(rules, m, snapshot, now)[0];
      FiredMembers(rules, m, snapshot, now, n);
    }
  }

  /** `notifications.filter(n => !n.read).length`. */
  function Unread(ns: seq<Notification>): (c: nat)
    ensures c <= |ns|
  {
    if ns == [] then 0 else (if ns[0].read then 0 else 1) + Unread(ns[1..])
  }

  lemma {:induction false} UnreadAppend(a: seq<Notification>, b: seq<Notification>)
    ensures Unread(a + b) == Unread(a) + Unread(b)
  {
    if a != [] {
      assert (a + b)[0] == a[0];
      assert (a + b)[1..] == a[1..] + b;
      UnreadAppend(a[1..], b);
    } else {
      assert a + b == b;
    }
  }

  /** Every notification a pass raises adds one to the unread count. */
  lemma {:induction false} UnreadAfterCheck(fired: seq<Notification>, snapshot: seq<Notification>)
    requires forall i :: 0 <= i < |fired| ==> !fired[i].read
    ensures Unread(fired + snapshot) == |fired| + Unread(snapshot)
  {
    UnreadAppend(fired, snapshot);
    AllUnread(fired);
  }

  lemma {:induction false} AllUnread(ns: seq<Notification>)
    requires forall i :: 0 <= i < |ns| ==> !ns[i].read
    ensures Unread(ns) == |ns|
  {
    if ns != [] {
      AllUnread(ns[1..]);
    }
  }

  /** `toggleRule(id)`'s `map`: the matching rules flip `enabled`, nothing
      else changes. */
  function Toggled(rules: seq<Rule>, id: string): (r: seq<Rule>)
    ensures |r| == |rules|
    ensures forall i :: 0 <= i < |rules| ==>
      r[i].enabled == (if rules[i].id == id then !rules[i].enabled else rules[i].enabled)
      && r[i].(enabled := rules[i].enabled) == rules[i]
  {
    seq(|rules|, i requires 0 <= i < |rules| =>
      if rules[i].id == id then rules[i].(enabled := !rules[i].enabled) else rules[i])
  }

  /** Toggling the same id twice gives the list back. */
  lemma ToggleTwice(rules: seq<Rule>, id: string)
    ensures Toggled(Toggled(rules, id), id) == rules
  {
    var once := Toggled(rules, id);
    var twice := Toggled(once, id);
    forall i | 0 <= i < |rules|
      ensures twice[i] == rules[i]
    {
      assert once[i].id == rules[i].id;
    }
  }

  /** `deleteRule(id)`'s `filter`. */
  function Without(rules: seq<Rule>, id: string): seq<Rule> {
    Filter(rules, (r: Rule) => r.id != id)
  }

  /** A rule stays exactly when its id differs, so none with that id is
      left. */
  lemma WithoutMembers(rules: seq<Rule>, id: string, x: Rule)
    ensures x in Without(rules, id) <==> x in rules && x.id != id
    ensures |Without(rules, id)| <= |rules|
  {
    FilterKeeps(rules, (r: Rule) => r.id != id, x);
  }

  /** `markAsRead(id)`'s `map`: the matching notifications become read,
      nothing else changes. */
  function MarkedRead(ns: seq<Notification>, id: string): (r: seq<Notification>)
    ensures |r| == |ns|
    ensures forall i :: 0 <= i < |ns| ==>
      r[i].read == (ns[i].id == id || ns[i].read) && r[i].(read := ns[i].read) == ns[i]
  {
    seq(|ns|, i requires 0 <= i < |ns| => if ns[i].id == id then ns[i].(read := true) else ns[i])
  }

  /** Marking as read never raises the unread count, and lowers it when an
      unread notification has that id; marking twice is marking once. */
  lemma {:induction false} MarkReadLowers(ns: seq<Notification>, id: string)
    ensures Unread(MarkedRead(ns, id)) <= Unread(ns)
    ensures (exists i :: 0 <= i < |ns| && ns[i].id == id && !ns[i].read) ==> Unread(MarkedRead(ns, id)) < Unread(ns)
    ensures MarkedRead(MarkedRead(ns, id), id) == MarkedRead(ns, id)
  {
    if ns != [] {
      var r := MarkedRead(ns, id);
      assert r[1..] == MarkedRead(ns[1..], id);
      MarkReadLowers(ns[1..], id);
      if exists i :: 0 <= i < |ns| && ns[i].id == id && !ns[i].read {
        var i :| 0 <= i < |ns| && ns[i].id == id && !ns[i].read;
        if i > 0 {
          assert ns[1..][i - 1] == ns[i];
        }
      }
    }
  }

  /** `addAlertRule` turns the form into a rule unless the name is empty
      or the threshold is 0 or unset. */
  function NewRule(draft: Draft, now: int): (r: Option<Rule>)
    ensures r.None? <==> draft.name.None? || draft.name.value == [] || draft.threshold.None? || draft.threshold.value == 0.0
    ensures r.Some? ==>
      && r.value.enabled && r.value.id == IntToDecimal(now) && r.value.name == draft.name.value
      && r.value.threshold == draft.threshold.value
      && r.value.kind == (if draft.kind.Some? then draft.kind.value else Aqi)
      && r.value.condition == (if draft.condition.Some? then draft.condition.value else Above)
      && r.value.severity == (if draft.severity.Some? then draft.severity.value else Warning)
  {
    if draft.name.None? || draft.name.value == [] || draft.threshold.None? || draft.threshold.value == 0.0 then None
    else
      Some(Rule(
        IntToDecimal(now), draft.name.value,
        if draft.kind.Some? then draft.kind.value else Aqi,
        if draft.condition.Some? then draft.condition.value else Above,
        draft.threshold.value, true,
        if draft.severity.Some? then draft.severity.value else Warning))
  }

  /** The loop of the threshold effect: every rule takes its turn against
      the notifications as they were when the effect began, and each firing
      rule's notification goes to the front. */
  method RaiseAll(rules: seq<Rule>, m: Metrics, snapshot: seq<Notification>, now: int) returns (ns: seq<Notification>)
    ensures ns == Fired(rules, m, snapshot, now) + snapshot
  {
    ns := snapshot;
    var i := 0;
    while i < |rules|
      invariant i <= |rules|
      invariant ns == Fired(rules[..i], m, snapshot, now) + snapshot
    {
      var rule := rules[i];
      FiredStep(rules, i, m, snapshot, now, ns);
      if Triggers(rule, m, snapshot, now) {
        ns := [NotificationFor(rule, m, now)] + ns;
      }
      i := i + 1;
    }
    assert rules[..i] == rules;
  }

  /** The panel's rule and notification state. */
  class AlertCenter {
    var rules: seq<Rule>
    var notifications: seq<Notification>

    constructor()
      ensures rules == DefaultRules && notifications == []
    {
      rules := DefaultRules;
      notifications := [];
    }

    /** The threshold effect: nothing happens until the contact is
        verified; then the new notifications go in front of the old ones. */
    method CheckThresholds(m: Metrics, contact: Contact, now: int)
      modifies this
      ensures rules == old(rules)
      ensures !Verified(contact) ==> notifications == old(notifications)
      ensures Verified(contact) ==> notifications == Fired(rules, m, old(notifications), now) + old(notifications)
    {
      if !Verified(contact) {
        return;
      }
      notifications := RaiseAll(rules, m, notifications, now);
    }

    /** `addAlertRule`: appends the form's rule, if it is acceptable. */
    method AddRule(draft: Draft, now: int)
      modifies this
      ensures NewRule(draft, now).Some? ==> rules == old(rules) + [NewRule(draft, now).value]
      ensures NewRule(draft, now).None? ==> rules == old(rules)
      ensures notifications == old(notifications)
    {
      var rule := NewRule(draft, now);
      if rule.Some? {
        rules := rules + [rule.value];
      }
    }

    method ToggleRule(id: string)
      modifies this
      ensures rules == Toggled(old(rules), id) && notifications == old(notifications)
    {
      rules := Toggled(rules, id);
    }

    method DeleteRule(id: string)
      modifies this
      ensures rules == Without(old(rules), id) && notifications == old(notifications)
    {
      rules := Without(rules, id);
    }

    method MarkAsRead(id: string)
      modifies this
      ensures notifications == MarkedRead(old(notifications), id) && rules == old(rules)
    {
      notifications := MarkedRead(notifications, id);
    }

    method ClearAllNotifications()
      modifies this
      ensures notifications == [] && rules == old(rules)
      ensures UnreadCount() == 0
    {
      notifications := [];
    }

    /** `unreadCount`. */
    function UnreadCount(): nat
      reads this
    {
      Unread(notifications)
    }
  }
}

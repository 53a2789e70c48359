/** The alarm engine (src/alarm/alarm_engine.cpp): rules over the points of a tag, and at most one
    firing of a rule name a minute.

    Numbers are reals here, numberOf says which one a bit pattern stands for; parse reads a condition
    into an operator and a threshold, and split cuts a list of actions. */
module Alarm {
  import opened Words
  import opened BlockCodec
  import opened MemTable

  datatype AlarmRule = AlarmRule(name: string, tagName: Tag, condition: string, threshold: real, op: string,
                                 actions: seq<string>)

  datatype AlarmEvent = AlarmEvent(alarmName: string, tagName: Tag, value: real, ts: int, condition: string)

  const GAP := 60000
  const MAX_EVENTS := 10000

  predicate Satisfied(rule: AlarmRule, value: real) {
    if rule.op == ">" then value > rule.threshold
    else if rule.op == "<" then value < rule.threshold
    else if rule.op == ">=" then value >= rule.threshold
    else if rule.op == "<=" then value <= rule.threshold
    else if rule.op == "==" then value == rule.threshold
    else if rule.op == "!=" then value != rule.threshold
    else false
  }

  /** What the operators mean: of `<`, `==` and `>` exactly one holds of a value, `>` goes on holding of
      greater values and `<` of smaller ones, `==` holds of the threshold, the other three are their
      opposites, and any other operator never holds. */
  lemma OperatorLaws(rule: AlarmRule, x: real, y: real)
    ensures Satisfied(rule.(op := "=="), x) <==> !Satisfied(rule.(op := "<"), x) && !Satisfied(rule.(op := ">"), x)
    ensures !(Satisfied(rule.(op := "<"), x) && Satisfied(rule.(op := ">"), x))
    ensures x <= y && Satisfied(rule.(op := ">"), x) ==> Satisfied(rule.(op := ">"), y)
    ensures x <= y && Satisfied(rule.(op := "<"), y) ==> Satisfied(rule.(op := "<"), x)
    ensures Satisfied(rule.(op := "=="), rule.threshold)
    ensures Satisfied(rule.(op := "!="), x) <==> !Satisfied(rule.(op := "=="), x)
    ensures Satisfied(rule.(op := ">="), x) <==> !Satisfied(rule.(op := "<"), x)
    ensures Satisfied(rule.(op := "<="), x) <==> !Satisfied(rule.(op := ">"), x)
    ensures rule.op !in {"<", "<=", "==", "!=", ">=", ">"} ==> !Satisfied(rule, x)
  {
  }

  ghost predicate UniqueNames(rules: seq<AlarmRule>) {
    forall i, j :: 0 <= i < j < |rules| ==> rules[i].name != rules[j].name
  }

  /** Firings of one name are a minute apart, in the order of time. */
  ghost predicate Spaced(fired: seq<AlarmEvent>) {
    forall i, j :: 0 <= i < j < |fired| && fired[i].alarmName == fired[j].alarmName ==>
      fired[j].ts - fired[i].ts >= GAP
  }

  /** No firing of this name is less than a minute before ts, and none is after it. */
  ghost predicate Due(name: string, ts: int, fired: seq<AlarmEvent>) {
    forall e :: e in fired && e.alarmName == name ==> ts - e.ts >= GAP
  }

  ghost predicate Fires(rule: AlarmRule, tag: Tag, value: real, ts: int, fired: seq<AlarmEvent>) {
    rule.tagName == tag && Satisfied(rule, value) && Due(rule.name, ts, fired)
  }

  /** What a point makes fire: every live rule that is satisfied and due, in the order of the rules. */
  ghost function Firings(rules: seq<AlarmRule>, tag: Tag, value: real, ts: int, fired: seq<AlarmEvent>): seq<AlarmEvent> {
    if rules == [] then []
    else
      var last := rules[|rules| - 1];
      Firings(rules[..|rules| - 1], tag, value, ts, fired)
      + if Fires(last, tag, value, ts, fired) then [AlarmEvent(last.name, tag, value, ts, last.condition)] else []
  }

  lemma {:induction false} FiringsIff(rules: seq<AlarmRule>, tag: Tag, value: real, ts: int, fired: seq<AlarmEvent>,
                                      e: AlarmEvent)
    ensures e in Firings(rules, tag, value, ts, fired)
       <==> exists r :: r in rules && Fires(r, tag, value, ts, fired) && e == AlarmEvent(r.name, tag, value, ts, r.condition)
    decreases |rules|
  {
    if rules != [] {
      var front, last := rules[..|rules| - 1], rules[|rules| - 1];
      FiringsIff(front, tag, value, ts, fired, e);
      assert rules == front + [last];
    }
  }

  /** After a firing at one time, a satisfied rule fires again from 60000 later on and not before. */
  lemma Minute(rule: AlarmRule, value: real, ts: int, last: AlarmEvent)
    requires Satisfied(rule, value) && last.alarmName == rule.name
    ensures Firings([rule], rule.tagName, value, ts, [last])
         == if ts - last.ts >= 60000 then [AlarmEvent(rule.name, rule.tagName, value, ts, rule.condition)] else []
  {
    hide Satisfied;
    var rules := [rule];
    assert rules[..0] == [];
    assert last in [last];
    assert Firings(rules[..0], rule.tagName, value, ts, [last]) == [];
  }

  ghost predicate Distinct(es: seq<AlarmEvent>) {
    forall i, j :: 0 <= i < j < |es| ==> es[i].alarmName != es[j].alarmName
  }

  lemma DistinctSnoc(es: seq<AlarmEvent>, e: AlarmEvent)
    requires Distinct(es) && forall d :: d in es ==> d.alarmName != e.alarmName
    ensures Distinct(es + [e])
  {
  }

  /** A rule fires at most once a point. */
  lemma {:induction false} FiringsDistinct(rules: seq<AlarmRule>, tag: Tag, value: real, ts: int, fired: seq<AlarmEvent>)
    requires UniqueNames(rules)
    ensures Distinct(Firings(rules, tag, value, ts, fired))
    decreases |rules|
  {
    if rules != [] {
      var front, last := rules[..|rules| - 1], rules[|rules| - 1];
      FiringsDistinct(front, tag, value, ts, fired);
      forall e | e in Firings(front, tag, value, ts, fired)
        ensures e.alarmName != last.name
      {
        FiringsIff(front, tag, value, ts, fired, e);
        var r :| r in front && r.name == e.alarmName;
        var i :| 0 <= i < |front| && front[i] == r;
        assert rules[i].name == r.name;
      }
      DistinctSnoc(Firings(front, tag, value, ts, fired), AlarmEvent(last.name, tag, value, ts, last.condition));
    }
  }

  /** The minute is kept whatever the points and their times. */
  lemma SpacedKept(rules: seq<AlarmRule>, tag: Tag, value: real, ts: int, fired: seq<AlarmEvent>)
    requires UniqueNames(rules) && Spaced(fired)
    ensures Spaced(fired + Firings(rules, tag, value, ts, fired))
  {
    var es := Firings(rules, tag, value, ts, fired);
    FiringsDistinct(rules, tag, value, ts, fired);
    forall i, j | 0 <= i < |fired| && 0 <= j < |es| && fired[i].alarmName == es[j].alarmName
      ensures es[j].ts - fired[i].ts >= GAP
    {
      FiringsIff(rules, tag, value, ts, fired, es[j]);
    }
  }

  /** The map from names to last times says of every name when it last fired. */
  ghost predicate Recorded(last: map<string, int>, fired: seq<AlarmEvent>) {
    && (forall e :: e in fired ==> e.alarmName in last && e.ts <= last[e.alarmName])
    && (forall n :: n in last ==> exists e :: e in fired && e.alarmName == n && e.ts == last[n])
  }

  lemma DueIff(name: string, ts: int, last: map<string, int>, fired: seq<AlarmEvent>)
    requires Recorded(last, fired)
    ensures Due(name, ts, fired) <==> name !in last || ts - last[name] >= GAP
  {
  }

  lemma RecordedNext(last: map<string, int>, fired: seq<AlarmEvent>, e: AlarmEvent)
    requires Recorded(last, fired) && Due(e.alarmName, e.ts, fired)
    ensures Recorded(last[e.alarmName := e.ts], fired + [e])
  {
  }

  /** The new firings before a rule say nothing of its own name. */
  lemma DueStill(rules: seq<AlarmRule>, i: nat, tag: Tag, value: real, ts: int, fired: seq<AlarmEvent>)
    requires i < |rules| && UniqueNames(rules)
    ensures Due(rules[i].name, ts, fired + Firings(rules[..i], tag, value, ts, fired)) <==> Due(rules[i].name, ts, fired)
  {
    var es := Firings(rules[..i], tag, value, ts, fired);
    forall e | e in es
      ensures e.alarmName != rules[i].name
    {
      FiringsIff(rules[..i], tag, value, ts, fired, e);
    }
  }

  function Capped(fired: seq<AlarmEvent>): seq<AlarmEvent> {
    if |fired| <= MAX_EVENTS then fired else fired[..MAX_EVENTS]
  }

  /** Only the first 10000 firings are stored. */
  lemma FirstStored(fired: seq<AlarmEvent>)
    ensures Capped(fired) <= fired && |Capped(fired)| <= 10000
    ensures |fired| <= 10000 ==> Capped(fired) == fired
    ensures |fired| > 10000 ==> |Capped(fired)| == 10000
  {
  }

  function NotNamed(rules: seq<AlarmRule>, name: string): (r: seq<AlarmRule>)
    ensures |r| <= |rules| && (|r| == |rules| <==> !HasName(rules, name))
    ensures forall x :: x in r <==> x in rules && x.name != name
  {
    if rules == [] then []
    else
      var front, last := rules[..|rules| - 1], rules[|rules| - 1];
      assert rules == front + [last];
      NotNamed(front, name) + if last.name != name then [last] else []
  }

  method RemoveIf(rules: seq<AlarmRule>, name: string) returns (kept: seq<AlarmRule>)
    ensures kept == NotNamed(rules, name)
  {
    hide HasName;
    kept := [];
    for i := 0 to |rules|
      invariant kept == NotNamed(rules[..i], name)
    {
      assert rules[..i + 1][..i] == rules[..i];
      if rules[i].name != name {
        kept := kept + [rules[i]];
      }
    }
    assert rules[..|rules|] == rules;
  }

  lemma {:induction false} AllKept(rules: seq<AlarmRule>, name: string)
    requires |NotNamed(rules, name)| == |rules|
    ensures NotNamed(rules, name) == rules
    decreases |rules|
  {
    hide HasName;
    if rules != [] {
      var front, last := rules[..|rules| - 1], rules[|rules| - 1];
      assert |NotNamed(front, name)| <= |front|;
      AllKept(front, name);
      assert rules == front + [last];
    }
  }

  function NotOf(rules: seq<AlarmRule>, tag: Tag): (r: seq<AlarmRule>)
    ensures |r| <= |rules|
    ensures forall x :: x in r <==> x in rules && x.tagName != tag
  {
    if rules == [] then []
    else
      var front, last := rules[..|rules| - 1], rules[|rules| - 1];
      assert rules == front + [last];
      NotOf(front, tag) + if last.tagName != tag then [last] else []
  }

  method RemoveOf(rules: seq<AlarmRule>, tag: Tag) returns (kept: seq<AlarmRule>)
    ensures kept == NotOf(rules, tag)
  {
    kept := [];
    for i := 0 to |rules|
      invariant kept == NotOf(rules[..i], tag)
    {
      assert rules[..i + 1][..i] == rules[..i];
      if rules[i].tagName != tag {
        kept := kept + [rules[i]];
      }
    }
    assert rules[..|rules|] == rules;
  }

  lemma {:induction false} NotNamedUnique(rules: seq<AlarmRule>, name: string)
    requires UniqueNames(rules)
    ensures UniqueNames(NotNamed(rules, name))
    decreases |rules|
  {
    if rules != [] {
      var front, last := rules[..|rules| - 1], rules[|rules| - 1];
      NotNamedUnique(front, name);
      assert forall x :: x in NotNamed(front, name) ==> x in front;
    }
  }

  lemma {:induction false} NotOfUnique(rules: seq<AlarmRule>, tag: Tag)
    requires UniqueNames(rules)
    ensures UniqueNames(NotOf(rules, tag))
    decreases |rules|
  {
    if rules != [] {
      var front, last := rules[..|rules| - 1], rules[|rules| - 1];
      NotOfUnique(front, tag);
      assert forall x :: x in NotOf(front, tag) ==> x in front;
    }
  }

  predicate HasName(rules: seq<AlarmRule>, name: string) {
    exists i :: 0 <= i < |rules| && rules[i].name == name
  }

  /** fired is history: every firing so far, as the callback saw it. */
  class AlarmEngine {
    const parse: string -> Option<(string, real)>
    const split: string -> seq<string>
    const numberOf: uint64 -> real
    var rules: seq<AlarmRule>
    var events: seq<AlarmEvent>
    var lastTriggerTime: map<string, int>
    ghost var fired: seq<AlarmEvent>

    ghost predicate Valid()
      reads this
    {
      UniqueNames(rules) && Parsed() && Spaced(fired) && Recorded(lastTriggerTime, fired) && events == Capped(fired)
    }

    /** Every rule compares as its own condition says, however it was altered. */
    ghost predicate Parsed()
      reads this
    {
      forall r :: r in rules ==> parse(r.condition) == Some((r.op, r.threshold))
    }

    constructor (parse: string -> Option<(string, real)>, split: string -> seq<string>, numberOf: uint64 -> real)
      ensures Valid() && rules == [] && fired == []
    {
      this.parse, this.split, this.numberOf := parse, split, numberOf;
      rules, events, lastTriggerTime, fired := [], [], map[], [];
    }

    method AddRule(rule: AlarmRule) returns (ok: bool)
      requires Valid()
      modifies this`rules
      ensures Valid()
      ensures ok <==> !HasName(old(rules), rule.name) && parse(rule.condition).Some?
      ensures ok ==> rules == old(rules) + [rule.(op := parse(rule.condition).value.0,
                                                  threshold := parse(rule.condition).value.1)]
      ensures !ok ==> rules == old(rules)
    {
      for i := 0 to |rules|
        invariant forall j :: 0 <= j < i ==> rules[j].name != rule.name
      {
        if rules[i].name == rule.name { return false; }
      }
      var parsed := parse(rule.condition);
      if parsed.None? { return false; }
      rules := rules + [rule.(op := parsed.value.0, threshold := parsed.value.1)];
      return true;
    }

    method RemoveRule(name: string) returns (ok: bool)
      requires Valid()
      modifies this`rules
      ensures Valid() && rules == NotNamed(old(rules), name)
      ensures ok <==> HasName(old(rules), name)
    {
      hide UniqueNames, Spaced, Recorded, Capped, HasName;
      NotNamedUnique(rules, name);
      var kept := RemoveIf(rules, name);
      if |kept| == |rules| {
        AllKept(rules, name);
        ok := false;
      } else {
        rules := kept;
        ok := true;
      }
    }

    method RemoveRulesByTag(tag: Tag) returns (count: int)
      requires Valid()
      modifies this`rules
      ensures Valid() && rules == NotOf(old(rules), tag)
      ensures count == |old(rules)| - |rules|
    {
      hide UniqueNames, Spaced, Recorded, Capped;
      NotOfUnique(rules, tag);
      var kept := RemoveOf(rules, tag);
      count := |rules| - |kept|;
      rules := kept;
    }

    /** What altering makes of a rule, if the property exists and its value can be read. */
    function Altered(r: AlarmRule, property: string, value: string): Option<AlarmRule> {
      if property == "condition" then
        match parse(value)
        case None => None
        case Some(c) => Some(r.(condition := value, op := c.0, threshold := c.1))
      else if property == "action" then Some(r.(actions := split(value)))
      else None
    }

    method AlterRule(name: string, property: string, value: string) returns (ok: bool)
      requires Valid()
      modifies this`rules
      ensures Valid() && |rules| == |old(rules)|
      ensures ok <==> exists i :: 0 <= i < |old(rules)| && old(rules)[i].name == name
                                  && Altered(old(rules)[i], property, value).Some?
      ensures forall i :: 0 <= i < |rules| ==>
        rules[i] == if ok && old(rules)[i].name == name then Altered(old(rules)[i], property, value).value else old(rules)[i]
      ensures ok ==> forall i :: 0 <= i < |rules| && old(rules)[i].name == name ==>
        && (property == "condition" ==>
              parse(value).Some?
              && rules[i] == old(rules)[i].(condition := value, op := parse(value).value.0, threshold := parse(value).value.1))
        && (property != "condition" ==> property == "action" && rules[i] == old(rules)[i].(actions := split(value)))
    {
      for i := 0 to |rules|
        invariant forall j :: 0 <= j < i ==> rules[j].name != name
      {
        if rules[i].name == name {
          var r := Altered(rules[i], property, value);
          if r.None? { return false; }
          rules := rules[i := r.value];
          return true;
        }
      }
      return false;
    }

    /** A firing for every live rule of the tag that is satisfied and due, and no other. */
    method Evaluate(tag: Tag, point: DataPoint)
      requires Valid()
      modifies this
      ensures Valid() && rules == old(rules)
      ensures fired == old(fired) + if point.value.Double?
                                    then Firings(rules, tag, numberOf(point.value.bits), point.ts, old(fired))
                                    else []
    {
      if point.value.Double? {
        var value := numberOf(point.value.bits);
        hide Recorded, Spaced, UniqueNames, Firings, Fires, Due, Satisfied, Capped;
        SpacedKept(rules, tag, value, point.ts, fired);
        NoFirings(tag, value, point.ts, fired);
        for i := 0 to |rules|
          invariant rules == old(rules) && UniqueNames(rules)
          invariant fired == old(fired) + Firings(rules[..i], tag, value, point.ts, old(fired))
          invariant Recorded(lastTriggerTime, fired) && events == Capped(fired)
        {
          NextFiring(rules, i, tag, value, point.ts, old(fired));
          Consider(rules[i], tag, value, point.ts);
        }
        assert rules[..|rules|] == rules;
      }
    }

    /** Fires the rule if it is for this tag, satisfied and due. */
    method Consider(rule: AlarmRule, tag: Tag, value: real, ts: int)
      requires Recorded(lastTriggerTime, fired) && events == Capped(fired)
      modifies this`lastTriggerTime, this`events, this`fired
      ensures Recorded(lastTriggerTime, fired) && events == Capped(fired)
      ensures fired == old(fired) + if Fires(rule, tag, value, ts, old(fired))
                                    then [AlarmEvent(rule.name, tag, value, ts, rule.condition)] else []
    {
      hide Recorded, Due, Satisfied, Capped;
      DueIff(rule.name, ts, lastTriggerTime, fired);
      if rule.tagName == tag && Satisfied(rule, value) {
        if !(rule.name in lastTriggerTime && ts - lastTriggerTime[rule.name] < GAP) {
          var event := AlarmEvent(rule.name, tag, value, ts, rule.condition);
          RecordedNext(lastTriggerTime, fired, event);
          CappedNext(fired, event);
          lastTriggerTime := lastTriggerTime[rule.name := ts];
          if |events| < MAX_EVENTS {
            events := events + [event];
          }
          fired := fired + [event];
        }
      }
    }
  }

  lemma NoFirings(tag: Tag, value: real, ts: int, fired: seq<AlarmEvent>)
    ensures Firings([], tag, value, ts, fired) == []
  {
  }

  lemma NextFiring(rules: seq<AlarmRule>, i: nat, tag: Tag, value: real, ts: int, fired: seq<AlarmEvent>)
    requires i < |rules| && UniqueNames(rules)
    ensures var rule, before := rules[i], Firings(rules[..i], tag, value, ts, fired);
      Firings(rules[..i + 1], tag, value, ts, fired) ==
      before + if Fires(rule, tag, value, ts, fired + before)
               then [AlarmEvent(rule.name, tag, value, ts, rule.condition)] else []
  {
    hide Satisfied, Due, UniqueNames;
    assert rules[..i + 1][..i] == rules[..i];
    DueStill(rules, i, tag, value, ts, fired);
  }

  lemma CappedNext(fired: seq<AlarmEvent>, e: AlarmEvent)
    ensures Capped(fired + [e]) == if |Capped(fired)| < MAX_EVENTS then Capped(fired) + [e] else Capped(fired)
  {
  }
}

/** The aggregate mapper: a post-stage over already mapped deltas. Each
    rule names member paths by role; the mapper remembers the latest value
    seen at every member path, and for every rule the incoming delta
    touches and whose members all have a value, it runs the rule's
    expression over those values (keyed by role). The derived values are
    appended as one extra update from the synthetic "signalk" source; a
    delta that derives nothing passes through unchanged. */
module Aggregate {
  import opened Wrappers
  import opened Message
  import opened Expressions

  /** The label of the synthetic source of derived values. */
  const DerivedLabel: string := "signalk"

  const DerivedSource: Source := Source(DerivedLabel, SignalK, NilUuid)

  /** An aggregate rule: member paths by role, the path the derived value
      is written to, and the expression computing it. */
  datatype Rule = Rule(members: map<string, string>, target: string, expression: string)

  /** The value last seen at each member path. */
  type Memory = map<string, Datum>

  predicate IsMemberPath(rules: seq<Rule>, p: string) {
    exists i :: 0 <= i < |rules| && p in rules[i].members.Values
  }

  /** The values of the updates, in order. */
  function AllValues(us: seq<Update>): seq<Value>
    decreases |us|
  {
    if |us| == 0 then [] else us[0].values + AllValues(us[1..])
  }

  /** Position of the last value at path `p`, or -1. */
  function LastAt(vs: seq<Value>, p: string): (i: int)
    ensures -1 <= i < |vs|
    ensures i >= 0 ==> vs[i].path == p && forall j :: i < j < |vs| ==> vs[j].path != p
    ensures i < 0 ==> forall j :: 0 <= j < |vs| ==> vs[j].path != p
    decreases |vs|
  {
    if |vs| == 0 then -1
    else if vs[|vs| - 1].path == p then |vs| - 1
    else LastAt(vs[..|vs| - 1], p)
  }

  /** Records the values at member paths, in order, so the last value at a
      path is the one remembered. */
  function Remember(rules: seq<Rule>, mem: Memory, vs: seq<Value>): (m: Memory)
    ensures forall p :: p in m <==> p in mem || (IsMemberPath(rules, p) && LastAt(vs, p) >= 0)
    ensures forall p :: IsMemberPath(rules, p) && LastAt(vs, p) >= 0 ==> p in m && m[p] == vs[LastAt(vs, p)].datum
    ensures forall p :: p in mem && (!IsMemberPath(rules, p) || LastAt(vs, p) < 0) ==> m[p] == mem[p]
    decreases |vs|
  {
    if |vs| == 0 then mem
    else
      var m := Remember(rules, mem, vs[..|vs| - 1]);
      var v := vs[|vs| - 1];
      if IsMemberPath(rules, v.path) then m[v.path := v.datum] else m
  }

  /** Remembering the same values a second time changes nothing. */
  lemma RememberIdempotent(rules: seq<Rule>, mem: Memory, vs: seq<Value>)
    ensures Remember(rules, Remember(rules, mem, vs), vs) == Remember(rules, mem, vs)
  {
  }

  // ---------------------------------------------------------------------------
  // Deriving values

  /** Whether some value of the updates sits at one of the rule's members. */
  predicate Touches(r: Rule, us: seq<Update>) {
    exists j, k :: 0 <= j < |us| && 0 <= k < |us[j].values| && us[j].values[k].path in r.members.Values
  }

  /** Whether every member of the rule has a remembered value. */
  predicate Complete(r: Rule, mem: Memory) {
    forall role :: role in r.members ==> r.members[role] in mem
  }

  function AsEnvValue(d: Datum): EnvValue {
    match d
    case Number(x) => Num(x)
    case Text(s) => Str(s)
    case Flag(b) => Bool(b)
  }

  /** The rule's environment: each role bound to its member's value. */
  function RuleEnvironment(r: Rule, mem: Memory): Environment
    requires Complete(r, mem)
  {
    map role | role in r.members :: AsEnvValue(mem[r.members[role]])
  }

  /** The value one rule derives, if any: it needs the delta to touch the
      rule, every member to have a value, and the expression to succeed. */
  function DeriveOne(r: Rule, run: Program, mem: Memory, us: seq<Update>): (o: Option<Value>)
    ensures o.Some? <==> Touches(r, us) && Complete(r, mem) && run(r.expression, RuleEnvironment(r, mem)).Ok?
    ensures o.Some? ==> o.value.path == r.target && Ok(o.value.datum) == run(r.expression, RuleEnvironment(r, mem))
  {
    if Touches(r, us) && Complete(r, mem) then
      match run(r.expression, RuleEnvironment(r, mem))
      case Ok(d) => Some(Value(r.target, d))
      case Err(_) => None
    else None
  }

  /** The derived values of all rules, in rule order. */
  function Derive(rules: seq<Rule>, run: Program, mem: Memory, us: seq<Update>): (d: seq<Value>)
    ensures |d| <= |rules|
    ensures d == [] <==> forall i :: 0 <= i < |rules| ==> DeriveOne(rules[i], run, mem, us).None?
    ensures forall v :: v in d <==> exists i :: 0 <= i < |rules| && DeriveOne(rules[i], run, mem, us) == Some(v)
    decreases |rules|
  {
    if |rules| == 0 then []
    else
      var rest := Derive(rules[1..], run, mem, us);
      var first := DeriveOne(rules[0], run, mem, us);
      var d := if first.Some? then [first.value] + rest else rest;
      assert forall i :: 1 <= i < |rules| ==> rules[i] == rules[1..][i - 1];
      assert forall v :: v in d <==> exists i :: 0 <= i < |rules| && DeriveOne(rules[i], run, mem, us) == Some(v) by {
        forall v | v in d ensures exists i :: 0 <= i < |rules| && DeriveOne(rules[i], run, mem, us) == Some(v) {
          if !(first.Some? && v == first.value) {
            var i :| 0 <= i < |rules[1..]| && DeriveOne(rules[1..][i], run, mem, us) == Some(v);
            assert DeriveOne(rules[i + 1], run, mem, us) == Some(v);
          }
        }
        forall v, i | 0 <= i < |rules| && DeriveOne(rules[i], run, mem, us) == Some(v) ensures v in d {
          if i > 0 {
            assert DeriveOne(rules[1..][i - 1], run, mem, us) == Some(v);
          }
        }
      }
      d
  }

  /** Whether an update carries a value at some member path. */
  predicate Triggers(rules: seq<Rule>, u: Update) {
    exists k :: 0 <= k < |u.values| && IsMemberPath(rules, u.values[k].path)
  }

  /** Position of the last update carrying a member path, or -1. */
  function LastTrigger(rules: seq<Rule>, us: seq<Update>): (i: int)
    ensures -1 <= i < |us|
    ensures i >= 0 ==> Triggers(rules, us[i]) && forall j :: i < j < |us| ==> !Triggers(rules, us[j])
    ensures i < 0 ==> forall j :: 0 <= j < |us| ==> !Triggers(rules, us[j])
    decreases |us|
  {
    if |us| == 0 then -1
    else if Triggers(rules, us[|us| - 1]) then |us| - 1
    else LastTrigger(rules, us[..|us| - 1])
  }

  /** A touched rule means some update carries a member path. */
  lemma TouchedHasTrigger(rules: seq<Rule>, i: nat, us: seq<Update>)
    requires i < |rules| && Touches(rules[i], us)
    ensures LastTrigger(rules, us) >= 0
  {
    var j, k :| 0 <= j < |us| && 0 <= k < |us[j].values| && us[j].values[k].path in rules[i].members.Values;
    assert IsMemberPath(rules, us[j].values[k].path);
    assert Triggers(rules, us[j]);
  }

  // ---------------------------------------------------------------------------
  // DoMap

  /** Maps one delta: remembers its member values, derives, and appends
      the derived values as one update stamped with the time of the last
      update carrying a member path. */
  function DoMap(rules: seq<Rule>, run: Program, mem: Memory, msg: Mapped): (r: (Memory, Mapped))
    ensures r.0 == Remember(rules, mem, AllValues(msg.updates))
    ensures r.1.context == msg.context && r.1.origin == msg.origin
    ensures |msg.updates| <= |r.1.updates| <= |msg.updates| + 1
    ensures r.1.updates[..|msg.updates|] == msg.updates
    ensures var derived := Derive(rules, run, r.0, msg.updates);
            && (derived == [] <==> r.1 == msg)
            && (derived != [] ==> LastTrigger(rules, msg.updates) >= 0
                                  && r.1.updates[|msg.updates|]
                                     == Update(DerivedSource, msg.updates[LastTrigger(rules, msg.updates)].timestamp, derived))
  {
    var mem1 := Remember(rules, mem, AllValues(msg.updates));
    var derived := Derive(rules, run, mem1, msg.updates);
    if derived == [] then (mem1, msg)
    else
      DerivedHasTrigger(rules, run, mem1, msg.updates);
      var t := msg.updates[LastTrigger(rules, msg.updates)].timestamp;
      var us := msg.updates + [Update(DerivedSource, t, derived)];
      assert us[..|msg.updates|] == msg.updates;
      (mem1, msg.(updates := us))
  }

  /** Something derived means some update carries a member path. */
  lemma DerivedHasTrigger(rules: seq<Rule>, run: Program, mem: Memory, us: seq<Update>)
    requires Derive(rules, run, mem, us) != []
    ensures LastTrigger(rules, us) >= 0
  {
    var d := Derive(rules, run, mem, us);
    assert d[0] in d;
    var i :| 0 <= i < |rules| && DeriveOne(rules[i], run, mem, us) == Some(d[0]);
    TouchedHasTrigger(rules, i, us);
  }

  /** When something is derived, the mapped delta is the input with one
      derived update appended, stamped with the last trigger's time. */
  lemma DoMapAppendsDerived(rules: seq<Rule>, run: Program, mem: Memory, msg: Mapped)
    ensures var m := Remember(rules, mem, AllValues(msg.updates));
            var d := Derive(rules, run, m, msg.updates);
            d != [] ==>
              && LastTrigger(rules, msg.updates) >= 0
              && DoMap(rules, run, mem, msg)
                 == (m, msg.(updates := msg.updates + [Update(DerivedSource, msg.updates[LastTrigger(rules, msg.updates)].timestamp, d)]))
  {
    var r := DoMap(rules, run, mem, msg);
    var n := |msg.updates|;
    if Derive(rules, run, r.0, msg.updates) != [] {
      assert |r.1.updates| == n + 1;
      assert r.1.updates == r.1.updates[..n] + [r.1.updates[n]];
    }
  }

  /** A delta that carries no member path derives nothing and leaves the
      memory as it was. */
  lemma NoMemberPathPassesThrough(rules: seq<Rule>, run: Program, mem: Memory, msg: Mapped)
    requires forall j, k :: 0 <= j < |msg.updates| && 0 <= k < |msg.updates[j].values| ==> !IsMemberPath(rules, msg.updates[j].values[k].path)
    ensures DoMap(rules, run, mem, msg) == (mem, msg)
  {
    var vs := AllValues(msg.updates);
    NoMemberValues(rules, msg.updates);
    var m := Remember(rules, mem, vs);
    forall p | IsMemberPath(rules, p) ensures LastAt(vs, p) < 0 {
      assert forall i :: 0 <= i < |vs| ==> vs[i].path != p;
    }
    assert m == mem;
    forall i | 0 <= i < |rules|
      ensures DeriveOne(rules[i], run, m, msg.updates).None?
    {
      forall j, k | 0 <= j < |msg.updates| && 0 <= k < |msg.updates[j].values|
        ensures msg.updates[j].values[k].path !in rules[i].members.Values
      {
        assert !IsMemberPath(rules, msg.updates[j].values[k].path);
      }
    }
  }

  /** No value of the flattened updates is at a member path when no update
      carries one. */
  lemma {:induction false} NoMemberValues(rules: seq<Rule>, us: seq<Update>)
    requires forall j, k :: 0 <= j < |us| && 0 <= k < |us[j].values| ==> !IsMemberPath(rules, us[j].values[k].path)
    ensures forall i :: 0 <= i < |AllValues(us)| ==> !IsMemberPath(rules, AllValues(us)[i].path)
    decreases |us|
  {
    if |us| > 0 {
      NoMemberValues(rules, us[1..]);
      var vs := AllValues(us);
      assert vs == us[0].values + AllValues(us[1..]);
      forall i | 0 <= i < |vs| ensures !IsMemberPath(rules, vs[i].path) {
        if i >= |us[0].values| {
          assert vs[i] == AllValues(us[1..])[i - |us[0].values|];
        }
      }
    }
  }

  /** Mapping the same delta again from the memory it produced derives
      the same delta. */
  lemma DoMapRepeatable(rules: seq<Rule>, run: Program, mem: Memory, msg: Mapped)
    ensures var (m1, out1) := DoMap(rules, run, mem, msg);
            DoMap(rules, run, m1, msg) == (m1, out1)
  {
    RememberIdempotent(rules, mem, AllValues(msg.updates));
  }

  // ---------------------------------------------------------------------------
  // The test configuration

  const PortPower: string := "propulsion.port.drive.power"
  const Port2Power: string := "propulsion.port2.drive.power"
  const Starboard2Power: string := "propulsion.starboard2.drive.power"
  const PlusFivePower: string := "propulsion.plusfive.drive.power"
  const CombinedPower: string := "propulsion.combined.drive.power"

  /** The two rules the expected deltas imply: port power plus five, and
      the sum of port2 and starboard2 power. */
  const ExampleRules: seq<Rule> := [
    Rule(map["port" := PortPower], PlusFivePower, "port + 5"),
    Rule(map["port2" := Port2Power, "starboard2" := Starboard2Power], CombinedPower, "port2 + starboard2")
  ]

  /** An expression evaluator that knows the two example expressions. */
  function ExampleProgram(expression: string, env: Environment): Result<Datum, string> {
    if expression == "port + 5" && "port" in env && env["port"].Num? then
      Ok(Number(env["port"].x + 5.0))
    else if expression == "port2 + starboard2" && "port2" in env && "starboard2" in env
            && env["port2"].Num? && env["starboard2"].Num? then
      Ok(Number(env["port2"].x + env["starboard2"].x))
    else
      Err("the expression does not evaluate")
  }

  /** A delta from the test collector: one update with the given values. */
  function Collected(now: Timestamp, vs: seq<Value>): Mapped {
    Mapped("testingContext", "testingContext", [Update(Source("testingCollector", Json, NilUuid), now, vs)])
  }

  /** The delta extended with the derived update at `now`. */
  function WithDerived(msg: Mapped, now: Timestamp, vs: seq<Value>): Mapped {
    msg.(updates := msg.updates + [Update(DerivedSource, now, vs)])
  }

  function Msg1(now: Timestamp): Mapped {
    Collected(now, [Value("propulsion.mainEngine.drive.power", Text("8409.6"))])
  }

  function Msg2(now: Timestamp): Mapped {
    Collected(now, [Value(PortPower, Number(5.6))])
  }

  function Msg3(now: Timestamp): Mapped {
    Collected(now, [Value(Port2Power, Number(5.6)), Value(Starboard2Power, Number(5.6))])
  }

  function Msg4(now: Timestamp): Mapped {
    Collected(now, [Value(Port2Power, Number(7.6))])
  }

  lemma ExampleRuleMembers()
    ensures ExampleRules[0].members.Values == {PortPower}
    ensures ExampleRules[1].members.Values == {Port2Power, Starboard2Power}
  {
    assert ExampleRules[0].members["port"] == PortPower;
    assert ExampleRules[1].members["port2"] == Port2Power;
    assert ExampleRules[1].members["starboard2"] == Starboard2Power;
  }

  /** The member paths of the example rules are the three power paths. */
  lemma ExampleMemberPaths(p: string)
    ensures IsMemberPath(ExampleRules, p) <==> p == PortPower || p == Port2Power || p == Starboard2Power
  {
    ExampleRuleMembers();
    if p == PortPower {
      assert p in ExampleRules[0].members.Values;
    } else if p == Port2Power || p == Starboard2Power {
      assert p in ExampleRules[1].members.Values;
    }
  }

  lemma ExampleStep1(now: Timestamp)
    ensures DoMap(ExampleRules, ExampleProgram, map[], Msg1(now)) == (map[], Msg1(now))
  {
    var msg := Msg1(now);
    forall j, k | 0 <= j < |msg.updates| && 0 <= k < |msg.updates[j].values|
      ensures !IsMemberPath(ExampleRules, msg.updates[j].values[k].path)
    {
      ExampleMemberPaths(msg.updates[j].values[k].path);
    }
    NoMemberPathPassesThrough(ExampleRules, ExampleProgram, map[], msg);
  }

  lemma ExampleStep2(now: Timestamp)
    ensures DoMap(ExampleRules, ExampleProgram, map[], Msg2(now))
            == (map[PortPower := Number(5.6)], WithDerived(Msg2(now), now, [Value(PlusFivePower, Number(10.6))]))
  {
    var msg := Msg2(now);
    ExampleMemberPaths(PortPower);
    SingleUpdateTrigger(ExampleRules, msg);
    var m: Memory := map[PortPower := Number(5.6)];
    RememberOne(ExampleRules, map[], msg.updates[0].values[0]);
    ExampleRuleMembers();
    assert Touches(ExampleRules[0], msg.updates) by {
      assert msg.updates[0].values[0].path in ExampleRules[0].members.Values;
    }
    PlusFiveDerives(m, msg.updates, 5.6);
    DoMapAppendsDerived(ExampleRules, ExampleProgram, map[], msg);
  }

  /** The plusfive rule, touched and complete while combined is not,
      derives port power plus five. */
  lemma PlusFiveDerives(m: Memory, us: seq<Update>, a: real)
    requires m == map[PortPower := Number(a)]
    requires Touches(ExampleRules[0], us)
    ensures Derive(ExampleRules, ExampleProgram, m, us) == [Value(PlusFivePower, Number(a + 5.0))]
  {
    ExampleRuleMembers();
    var r := ExampleRules[0];
    assert r.members == map["port" := PortPower];
    assert Complete(r, m);
    assert RuleEnvironment(r, m) == map["port" := Num(a)];
    assert DeriveOne(r, ExampleProgram, m, us) == Some(Value(PlusFivePower, Number(a + 5.0)));
    assert !Complete(ExampleRules[1], m) by {
      assert ExampleRules[1].members["port2"] == Port2Power;
    }
    assert DeriveOne(ExampleRules[1], ExampleProgram, m, us) == None;
    assert ExampleRules[1..] == [ExampleRules[1]];
  }

  /** The combined rule, touched and complete, derives the sum. */
  lemma CombinedDerives(m: Memory, us: seq<Update>, a: real, b: real)
    requires Port2Power in m && m[Port2Power] == Number(a)
    requires Starboard2Power in m && m[Starboard2Power] == Number(b)
    requires !Touches(ExampleRules[0], us) && Touches(ExampleRules[1], us)
    ensures Derive(ExampleRules, ExampleProgram, m, us) == [Value(CombinedPower, Number(a + b))]
  {
    ExampleRuleMembers();
    var r := ExampleRules[1];
    assert Complete(r, m) by {
      forall role | role in r.members ensures r.members[role] in m {
        assert role == "port2" || role == "starboard2";
      }
    }
    var env := RuleEnvironment(r, m);
    assert env["port2"] == Num(a) && env["starboard2"] == Num(b);
    assert DeriveOne(r, ExampleProgram, m, us) == Some(Value(CombinedPower, Number(a + b)));
    assert DeriveOne(ExampleRules[0], ExampleProgram, m, us) == None;
    assert ExampleRules[1..] == [r];
  }

  /** Remembering one member value. */
  lemma RememberOne(rules: seq<Rule>, mem: Memory, v: Value)
    requires IsMemberPath(rules, v.path)
    ensures Remember(rules, mem, [v]) == mem[v.path := v.datum]
  {
    assert [v][..0] == [];
  }

  /** Remembering two member values. */
  lemma RememberTwo(rules: seq<Rule>, mem: Memory, v: Value, w: Value)
    requires IsMemberPath(rules, v.path) && IsMemberPath(rules, w.path)
    ensures Remember(rules, mem, [v, w]) == mem[v.path := v.datum][w.path := w.datum]
  {
    assert [v, w][..1] == [v];
    RememberOne(rules, mem, v);
  }

  /** A delta whose one update carries a member path is stamped with
      that update's time. */
  lemma SingleUpdateTrigger(rules: seq<Rule>, msg: Mapped)
    requires |msg.updates| == 1 && |msg.updates[0].values| > 0 && IsMemberPath(rules, msg.updates[0].values[0].path)
    ensures LastTrigger(rules, msg.updates) == 0
    ensures AllValues(msg.updates) == msg.updates[0].values
  {
    assert Triggers(rules, msg.updates[0]);
    assert AllValues(msg.updates) == msg.updates[0].values + AllValues([]);
  }

  /** A single-update delta whose values avoid port power and start at a
      combined member touches only the combined rule. */
  lemma OnlyCombinedTouched(us: seq<Update>)
    requires |us| == 1 && |us[0].values| > 0
    requires us[0].values[0].path == Port2Power
    requires forall k :: 0 <= k < |us[0].values| ==> us[0].values[k].path != PortPower
    ensures !Touches(ExampleRules[0], us) && Touches(ExampleRules[1], us)
  {
    ExampleRuleMembers();
    assert us[0].values[0].path in ExampleRules[1].members.Values;
  }

  lemma ExampleStep3(now: Timestamp)
    ensures DoMap(ExampleRules, ExampleProgram, map[PortPower := Number(5.6)], Msg3(now))
            == (map[PortPower := Number(5.6), Port2Power := Number(5.6), Starboard2Power := Number(5.6)],
                WithDerived(Msg3(now), now, [Value(CombinedPower, Number(11.2))]))
  {
    var msg := Msg3(now);
    ExampleMemberPaths(Port2Power);
    ExampleMemberPaths(Starboard2Power);
    SingleUpdateTrigger(ExampleRules, msg);
    var m: Memory := map[PortPower := Number(5.6), Port2Power := Number(5.6), Starboard2Power := Number(5.6)];
    var mem: Memory := map[PortPower := Number(5.6)];
    RememberTwo(ExampleRules, mem, msg.updates[0].values[0], msg.updates[0].values[1]);
    assert msg.updates[0].values == [msg.updates[0].values[0], msg.updates[0].values[1]];
    assert mem[Port2Power := Number(5.6)][Starboard2Power := Number(5.6)] == m;
    OnlyCombinedTouched(msg.updates);
    CombinedDerives(m, msg.updates, 5.6, 5.6);
    DoMapAppendsDerived(ExampleRules, ExampleProgram, mem, msg);
  }

  lemma ExampleStep4(now: Timestamp)
    ensures DoMap(ExampleRules, ExampleProgram,
                  map[PortPower := Number(5.6), Port2Power := Number(5.6), Starboard2Power := Number(5.6)], Msg4(now))
            == (map[PortPower := Number(5.6), Port2Power := Number(7.6), Starboard2Power := Number(5.6)],
                WithDerived(Msg4(now), now, [Value(CombinedPower, Number(13.2))]))
  {
    var msg := Msg4(now);
    ExampleMemberPaths(Port2Power);
    SingleUpdateTrigger(ExampleRules, msg);
    var m: Memory := map[PortPower := Number(5.6), Port2Power := Number(7.6), Starboard2Power := Number(5.6)];
    var mem: Memory := map[PortPower := Number(5.6), Port2Power := Number(5.6), Starboard2Power := Number(5.6)];
    RememberOne(ExampleRules, mem, msg.updates[0].values[0]);
    assert msg.updates[0].values == [msg.updates[0].values[0]];
    assert mem[Port2Power := Number(7.6)] == m;
    OnlyCombinedTouched(msg.updates);
    CombinedDerives(m, msg.updates, 7.6, 5.6);
    DoMapAppendsDerived(ExampleRules, ExampleProgram, mem, msg);
  }

  /** The four deltas of the aggregate test, fed in order to a fresh
      mapper: an unrelated path passes through; port 5.6 derives plusfive
      10.6; port2 and starboard2 at 5.6 derive combined 11.2; and port2
      alone at 7.6 derives combined 13.2 from the remembered starboard2. */
  lemma ExampleScenario(now: Timestamp)
    ensures var (m1, out1) := DoMap(ExampleRules, ExampleProgram, map[], Msg1(now));
            var (m2, out2) := DoMap(ExampleRules, ExampleProgram, m1, Msg2(now));
            var (m3, out3) := DoMap(ExampleRules, ExampleProgram, m2, Msg3(now));
            var (m4, out4) := DoMap(ExampleRules, ExampleProgram, m3, Msg4(now));
            && out1 == Msg1(now)
            && out2 == WithDerived(Msg2(now), now, [Value(PlusFivePower, Number(10.6))])
            && out3 == WithDerived(Msg3(now), now, [Value(CombinedPower, Number(11.2))])
            && out4 == WithDerived(Msg4(now), now, [Value(CombinedPower, Number(13.2))])
  {
    ExampleStep1(now);
    ExampleStep2(now);
    ExampleStep3(now);
    ExampleStep4(now);
  }
}

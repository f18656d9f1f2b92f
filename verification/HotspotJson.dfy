/** The JSON objects that `AutomagicSetup::install` builds for sources, actions and flows, and reading them back. */
module HotspotJson {
  import opened Prelude
  import opened Upsert
  import opened FlowLang
  import opened HotspotFlows

  // ---- Sources and actions ----

  function CopyTransform(from: string, to: string): Json
  {
    Obj(map["type" := Str("copy"), "in" := Str(from), "out" := Str(to)])
  }

  /** An empty `kind` fires on every event; otherwise the first argument is filtered. */
  function DbusSource(id: string, name: string, kind: string): Json
  {
    var base := map["name" := Str(name), "type" := Str("dbus"), "enabled" := Bool(true), "trigger" := Bool(true),
                    "address" := Str("session"), "destination" := Str("org.electriceel.harbour-electric-eel"),
                    "path" := Str("/org/electriceel/PhoneKey"), "interface" := Str("org.electriceel.PhoneKey1"),
                    "transformations" := Arr([CopyTransform("arg0", "kind"), CopyTransform("arg1", "vin"),
                                              CopyTransform("arg2", "event_time"), CopyTransform("arg3", "error")]),
                    "signal" := Str("PhoneKeyEvent")];
    Obj((if kind == "" then base else base["filters" := Obj(map["arg0" := Str(kind)])])["id" := Str(id)])
  }

  function Argument(kind: string, value: Json): Json
  {
    Obj(map["type" := Str(kind), "value" := value])
  }

  function TetherAction(id: string, name: string, on: bool): Json
  {
    Obj(map["name" := Str(name), "type" := Str("dbus_method"), "enabled" := Bool(true), "address" := Str("system"),
            "destination" := Str("net.connman"), "path" := Str("/net/connman/technology/wifi"),
            "interface" := Str("net.connman.Technology"), "timeout" := Str("5s"), "method" := Str("SetProperty"),
            "args" := Arr([Argument("s", Str("Tethering")), Argument("v:b", Bool(on))]), "id" := Str(id)])
  }

  // ---- Steps and flows ----

  /** The shared state cell. */
  const AWAY_STATE := "eel_hotspot_away"

  function Decimals(n: nat): (s: string)
    ensures s != ""
  {
    (if n < 10 then "" else Decimals(n / 10)) + [('0' as int + n % 10) as char]
  }

  function VarName(v: Var): string
  {
    match v
    case Pending => "pending"
    case AwayNow => "away_now"
    case OwnRunId => "_run_id"
  }

  function Constant(t: Text): string
  {
    match t
    case Blank => ""
    case IdOf(run) => Decimals(run)
  }

  function Duration(seconds: nat): string
  {
    if seconds % 60 == 0 then Decimals(seconds / 60) + "m" else Decimals(seconds) + "s"
  }

  function OpFields(op: Op): map<string, Json>
  {
    match op
    case Act(action) => map["type" := Str("action"), "action" := Str(action)]
    case SetStatic(value) =>
      map["type" := Str("action"), "function" := Str("set_state"),
          "params" := Obj(map["name" := Str(AWAY_STATE), "static" := Str(Constant(value))])]
    case SetTemplate(v) =>
      map["type" := Str("action"), "function" := Str("set_state"),
          "params" := Obj(map["name" := Str(AWAY_STATE), "template" := Str("{{" + VarName(v) + "}}")])]
    case Get(v) =>
      map["type" := Str("get"), "function" := Str("state"), "params" := Obj(map["name" := Str(AWAY_STATE)]),
          "mapping" := Obj(map["state" := Str(VarName(v))])]
    case Branch => map["type" := Str("branch")]
    case Wait(duration) => map["type" := Str("wait"), "params" := Obj(map["duration" := Str(Duration(duration))])]
  }

  function CondFields(c: Cond): map<string, Json>
  {
    match c
    case Exists(v) => map["op" := Str("exists"), "left_var" := Str(VarName(v))]
    case Differs(v, t) =>
      map["op" := Str("!="), "left_var" := Str(VarName(v)), "right_const" := Str(Constant(t))]
    case Same(l, r) => map["op" := Str("=="), "left_var" := Str(VarName(l)), "right_var" := Str(VarName(r))]
  }

  /** Every condition but the first is joined to those before it. */
  function CondJson(c: Cond, first: bool): Json
  {
    Obj(if first then CondFields(c) else CondFields(c)["logic" := Str("and")])
  }

  function CondList(cs: seq<Cond>): seq<Json>
  {
    if cs == [] then [] else CondList(cs[..|cs| - 1]) + [CondJson(cs[|cs| - 1], |cs| == 1)]
  }

  function TargetJson(fields: map<string, Json>, key: string, t: Target): map<string, Json>
  {
    match t
    case Next => fields
    case End => fields[key := Str("end")]
    case To(id) => fields[key := Str(id)]
  }

  function GuardedFields(op: Op, cs: seq<Cond>): map<string, Json>
  {
    if cs == [] then OpFields(op) else OpFields(op)["if" := Arr(CondList(cs))]
  }

  function StepJson(s: Step): Json
  {
    Obj(TargetJson(TargetJson(GuardedFields(s.op, s.conditions), "goto", s.go), "goto_alt", s.alt)["id" := Str(s.id)])
  }

  function StepList(f: Flow): (r: seq<Json>)
    ensures |r| == |f| && forall i :: 0 <= i < |f| ==> r[i] == StepJson(f[i])
  {
    seq(|f|, i requires 0 <= i < |f| => StepJson(f[i]))
  }

  /** A flow as installed: its id, its one trigger and its steps. */
  datatype FlowSpec = FlowSpec(id: string, name: string, trigger: string, steps: Flow)

  function FlowJson(f: FlowSpec): Json
  {
    Obj(map["name" := Str(f.name), "enabled" := Bool(true), "triggers" := Arr([Str(f.trigger)]),
            "steps" := Arr(StepList(f.steps)), "id" := Str(f.id)])
  }

  // ---- Reading a step back ----

  function TextAt(fields: map<string, Json>, key: string): Option<string>
  {
    if key in fields && fields[key].Str? then Some(fields[key].s) else None
  }

  function ObjectAt(fields: map<string, Json>, key: string): map<string, Json>
  {
    if key in fields && fields[key].Obj? then fields[key].fields else map[]
  }

  function Number(s: string): Option<nat>
  {
    if s == "" || !('0' <= s[|s| - 1] <= '9') then None
    else
      var last := s[|s| - 1] as int - '0' as int;
      if |s| == 1 then Some(last)
      else if Number(s[..|s| - 1]).None? then None else Some(10 * Number(s[..|s| - 1]).value + last)
  }

  function VarOf(s: string): Option<Var>
  {
    if s == "pending" then Some(Pending)
    else if s == "away_now" then Some(AwayNow)
    else if s == "_run_id" then Some(OwnRunId)
    else None
  }

  function ConstantOf(s: string): Option<Text>
  {
    if s == "" then Some(Blank) else if Number(s).None? then None else Some(IdOf(Number(s).value))
  }

  function DurationOf(s: string): Option<nat>
  {
    if s == "" || Number(s[..|s| - 1]).None? then None
    else if s[|s| - 1] == 'm' then Some(60 * Number(s[..|s| - 1]).value)
    else if s[|s| - 1] == 's' then Some(Number(s[..|s| - 1]).value)
    else None
  }

  function TemplateOf(s: string): Option<Var>
  {
    if |s| < 4 || s[..2] != "{{" || s[|s| - 2..] != "}}" then None else VarOf(s[2..|s| - 2])
  }

  function VarAt(fields: map<string, Json>, key: string): Option<Var>
  {
    if TextAt(fields, key).None? then None else VarOf(TextAt(fields, key).value)
  }

  function Map<T, U>(o: Option<T>, f: T -> U): Option<U>
  {
    if o.None? then None else Some(f(o.value))
  }

  function SetOf(params: map<string, Json>): Option<Op>
  {
    if TextAt(params, "name") != Some(AWAY_STATE) then None
    else if TextAt(params, "static").Some? then Map(ConstantOf(TextAt(params, "static").value), t => SetStatic(t))
    else if TextAt(params, "template").Some? then Map(TemplateOf(TextAt(params, "template").value), v => SetTemplate(v))
    else None
  }

  function OpOf(fields: map<string, Json>): Option<Op>
  {
    var kind, does := TextAt(fields, "type"), TextAt(fields, "function");
    var params := ObjectAt(fields, "params");
    if kind == Some("branch") then Some(Branch)
    else if kind == Some("wait") && TextAt(params, "duration").Some? then
      Map(DurationOf(TextAt(params, "duration").value), d => Wait(d))
    else if kind == Some("get") && does == Some("state") && TextAt(params, "name") == Some(AWAY_STATE) then
      Map(VarAt(ObjectAt(fields, "mapping"), "state"), v => Get(v))
    else if kind == Some("action") && does == Some("set_state") then SetOf(params)
    else if kind == Some("action") then Map(TextAt(fields, "action"), a => Act(a))
    else None
  }

  function CondOf(j: Json, first: bool): Option<Cond>
  {
    if !j.Obj? || TextAt(j.fields, "logic") != (if first then None else Some("and")) then None
    else
      var op, left := TextAt(j.fields, "op"), VarAt(j.fields, "left_var");
      if left.None? then None
      else if op == Some("exists") then Some(Exists(left.value))
      else if op == Some("!=") && TextAt(j.fields, "right_const").Some? then
        Map(ConstantOf(TextAt(j.fields, "right_const").value), t => Differs(left.value, t))
      else if op == Some("==") then Map(VarAt(j.fields, "right_var"), r => Same(left.value, r))
      else None
  }

  function CondsOf(js: seq<Json>): Option<seq<Cond>>
  {
    if js == [] then Some([])
    else
      var init, last := CondsOf(js[..|js| - 1]), CondOf(js[|js| - 1], |js| == 1);
      if init.None? || last.None? then None else Some(init.value + [last.value])
  }

  function ConditionsAt(fields: map<string, Json>): Option<seq<Cond>>
  {
    if "if" !in fields then Some([]) else if fields["if"].Arr? then CondsOf(fields["if"].items) else None
  }

  function TargetOf(fields: map<string, Json>, key: string): Target
  {
    match TextAt(fields, key)
    case None => Next
    case Some(id) => if id == "end" then End else To(id)
  }

  function StepOf(j: Json): Option<Step>
  {
    if !j.Obj? || OpOf(j.fields).None? || ConditionsAt(j.fields).None? then None
    else
      Some(Step(Id(j), OpOf(j.fields).value, ConditionsAt(j.fields).value,
                TargetOf(j.fields, "goto"), TargetOf(j.fields, "goto_alt")))
  }

  // ---- Steps read back as they were ----

  lemma {:induction false} NumberOfDecimals(n: nat)
    ensures Number(Decimals(n)) == Some(n)
  {
    var s := Decimals(n);
    var last := s[|s| - 1];
    assert last as int - '0' as int == n % 10;
    if n < 10 {
      assert s == [last];
    } else {
      NumberOfDecimals(n / 10);
      assert s[..|s| - 1] == Decimals(n / 10);
    }
  }

  lemma VarReadsBack(v: Var)
    ensures VarOf(VarName(v)) == Some(v)
  {
    assert "pending"[0] == 'p' && "_run_id"[0] == '_' && |"away_now"| == 8;
  }

  lemma ConstantReadsBack(t: Text)
    ensures ConstantOf(Constant(t)) == Some(t)
  {
    if t.IdOf? { NumberOfDecimals(t.run); }
  }

  lemma AmountReadsBack(n: nat, unit: char)
    requires unit == 'm' || unit == 's'
    ensures DurationOf(Decimals(n) + [unit]) == Some(if unit == 'm' then 60 * n else n)
  {
    NumberOfDecimals(n);
    var s := Decimals(n) + [unit];
    assert s[..|s| - 1] == Decimals(n) && s[|s| - 1] == unit;
  }

  lemma DurationReadsBack(seconds: nat)
    ensures DurationOf(Duration(seconds)) == Some(seconds)
  {
    if seconds % 60 == 0 {
      AmountReadsBack(seconds / 60, 'm');
      assert Duration(seconds) == Decimals(seconds / 60) + ['m'];
    } else {
      AmountReadsBack(seconds, 's');
      assert Duration(seconds) == Decimals(seconds) + ['s'];
    }
  }

  lemma TemplateReadsBack(v: Var)
    ensures TemplateOf("{{" + VarName(v) + "}}") == Some(v)
  {
    var s := "{{" + VarName(v) + "}}";
    assert s[2..|s| - 2] == VarName(v) && s[..2] == "{{" && s[|s| - 2..] == "}}";
    VarReadsBack(v);
  }

  /** The keys of a condition are distinct. */
  lemma CondKeys()
    ensures |"op"| == 2 && |"left_var"| == 8 && |"right_const"| == 11 && |"right_var"| == 9 && |"logic"| == 5
    ensures "!=" != "=="
  {
    assert "!="[0] != "=="[0];
  }

  /** What reading a condition looks at. */
  lemma CondFieldsAt(c: Cond, first: bool)
    ensures var f := CondJson(c, first).fields;
            && TextAt(f, "logic") == (if first then None else Some("and"))
            && TextAt(f, "op") == Some(if c.Exists? then "exists" else if c.Differs? then "!=" else "==")
            && TextAt(f, "left_var") == Some(VarName(if c.Same? then c.left else c.v))
            && (c.Differs? ==> TextAt(f, "right_const") == Some(Constant(c.text)))
            && (c.Same? ==> TextAt(f, "right_var") == Some(VarName(c.right)))
  {
    CondKeys();
  }

  lemma CondReadsBack(c: Cond, first: bool)
    ensures CondOf(CondJson(c, first), first) == Some(c)
  {
    CondKeys();
    CondFieldsAt(c, first);
    match c {
      case Exists(v) => VarReadsBack(v);
      case Differs(v, t) =>
        VarReadsBack(v);
        ConstantReadsBack(t);
      case Same(l, r) =>
        VarReadsBack(l);
        VarReadsBack(r);
    }
  }

  lemma CondsOfSnoc(js: seq<Json>, j: Json)
    ensures CondsOf(js + [j]) ==
            if CondsOf(js).None? || CondOf(j, js == []).None? then None
            else Some(CondsOf(js).value + [CondOf(j, js == []).value])
  {
    assert (js + [j])[..|js|] == js;
  }

  lemma {:induction false} CondsReadBack(cs: seq<Cond>)
    ensures |CondList(cs)| == |cs| && CondsOf(CondList(cs)) == Some(cs)
  {
    if cs != [] {
      var init := cs[..|cs| - 1];
      CondsReadBack(init);
      CondReadsBack(cs[|cs| - 1], |cs| == 1);
      CondsOfSnoc(CondList(init), CondJson(cs[|cs| - 1], |cs| == 1));
      assert cs == init + [cs[|cs| - 1]];
    }
  }

  /** What reading an operation looks at is the same in both. */
  ghost predicate SameOpFields(a: map<string, Json>, b: map<string, Json>)
  {
    forall key :: key in {"type", "function", "params", "mapping", "action"} ==>
      (key in a <==> key in b) && (key in a ==> a[key] == b[key])
  }

  /** The keys of a step are distinct. */
  lemma StepKeys()
    ensures |"id"| == 2 && |"if"| == 2 && "id" != "if"
    ensures |"type"| == 4 && |"goto"| == 4 && "type" != "goto"
    ensures |"action"| == 6 && |"params"| == 6 && "action" != "params" && |"mapping"| == 7
    ensures |"function"| == 8 && |"goto_alt"| == 8 && "function" != "goto_alt"
  {
    assert "id"[1] != "if"[1] && "type"[0] != "goto"[0] && "action"[0] != "params"[0];
    assert "function"[0] != "goto_alt"[0];
  }

  lemma SetReadsBack(op: Op)
    requires op.SetStatic? || op.SetTemplate?
    ensures SetOf(ObjectAt(OpFields(op), "params")) == Some(op)
  {
    StepKeys();
    ParamKeys();
    match op {
      case SetStatic(value) =>
        assert ObjectAt(OpFields(op), "params") ==
               map["name" := Str(AWAY_STATE), "static" := Str(Constant(value))];
        ConstantReadsBack(value);
      case SetTemplate(v) =>
        assert ObjectAt(OpFields(op), "params") ==
               map["name" := Str(AWAY_STATE), "template" := Str("{{" + VarName(v) + "}}")];
        TemplateReadsBack(v);
    }
  }

  lemma ParamKeys()
    ensures |"name"| == 4 && |"static"| == 6 && |"template"| == 8
  {
  }

  lemma Kinds()
    ensures |"branch"| == 6 && |"wait"| == 4 && |"get"| == 3 && "action" != "branch" && |"action"| == 6
    ensures |"state"| == 5 && |"set_state"| == 9
  {
    assert "action"[0] != "branch"[0];
  }

  /** The type of an operation, its function and what goes with them. */
  lemma OpKind(op: Op)
    ensures var f := OpFields(op);
            && TextAt(f, "type") == Some(if op.Branch? then "branch" else if op.Wait? then "wait"
                                         else if op.Get? then "get" else "action")
            && TextAt(f, "function") == (if op.Get? then Some("state")
                                         else if op.SetStatic? || op.SetTemplate? then Some("set_state") else None)
            && TextAt(f, "action") == if op.Act? then Some(op.action) else None
  {
    StepKeys();
  }

  lemma OpReadsBack(op: Op)
    ensures OpOf(OpFields(op)) == Some(op)
  {
    Kinds();
    OpKind(op);
    match op {
      case Act(_) =>
      case SetStatic(_) => SetReadsBack(op);
      case SetTemplate(_) => SetReadsBack(op);
      case Get(v) => GetReadsBack(v);
      case Branch =>
      case Wait(duration) => WaitReadsBack(duration);
    }
  }

  lemma GetReadsBack(v: Var)
    ensures TextAt(ObjectAt(OpFields(Get(v)), "params"), "name") == Some(AWAY_STATE)
    ensures VarAt(ObjectAt(OpFields(Get(v)), "mapping"), "state") == Some(v)
  {
    StepKeys();
    VarReadsBack(v);
  }

  lemma WaitReadsBack(duration: nat)
    ensures TextAt(ObjectAt(OpFields(Wait(duration)), "params"), "duration") == Some(Duration(duration))
    ensures DurationOf(Duration(duration)) == Some(duration)
  {
    StepKeys();
    DurationReadsBack(duration);
  }

  lemma OpLooksAt(a: map<string, Json>, b: map<string, Json>)
    requires SameOpFields(a, b)
    ensures OpOf(a) == OpOf(b)
  {
    var keys := {"type", "function", "params", "mapping", "action"};
    assert "type" in keys && "function" in keys && "params" in keys && "mapping" in keys && "action" in keys;
    forall key | key in keys ensures TextAt(a, key) == TextAt(b, key) && ObjectAt(a, key) == ObjectAt(b, key) {}
  }

  // The layers of a step around its operation: each adds a key of its own and leaves the others.

  lemma LayersKeepOp(s: Step)
    ensures SameOpFields(StepJson(s).fields, OpFields(s.op))
  {
    StepKeys();
    var f0 := OpFields(s.op);
    var f1 := GuardedFields(s.op, s.conditions);
    var f2 := TargetJson(f1, "goto", s.go);
    assert SameOpFields(f1, f0);
    assert SameOpFields(f2, f1);
    assert SameOpFields(TargetJson(f2, "goto_alt", s.alt), f2);
  }

  lemma TargetReadsBack(fields: map<string, Json>, key: string, t: Target)
    requires key !in fields && t != To("end")
    ensures TargetOf(TargetJson(fields, key, t), key) == t
    ensures forall other :: other != key ==>
              (other in TargetJson(fields, key, t) <==> other in fields)
              && (other in fields ==> TargetJson(fields, key, t)[other] == fields[other])
  {
  }

  lemma ConditionsReadBack(op: Op, cs: seq<Cond>)
    ensures ConditionsAt(GuardedFields(op, cs)) == Some(cs)
    ensures "goto" !in GuardedFields(op, cs) && "goto_alt" !in GuardedFields(op, cs)
  {
    StepKeys();
    CondsReadBack(cs);
    assert "if" !in OpFields(op) && "goto" !in OpFields(op) && "goto_alt" !in OpFields(op);
  }

  lemma JumpsReadBack(fields: map<string, Json>, id: string, go: Target, alt: Target)
    requires "goto" !in fields && "goto_alt" !in fields && go != To("end") && alt != To("end")
    ensures var f := TargetJson(TargetJson(fields, "goto", go), "goto_alt", alt)["id" := Str(id)];
            && TargetOf(f, "goto") == go && TargetOf(f, "goto_alt") == alt
            && ConditionsAt(f) == ConditionsAt(fields)
  {
    StepKeys();
    TargetReadsBack(fields, "goto", go);
    TargetReadsBack(TargetJson(fields, "goto", go), "goto_alt", alt);
  }

  /**
   * Round trip: id, operation with all its parameters, conditions and both jumps of a step are what is read
   * back from the object installed for it.
   */
  lemma StepReadsBack(s: Step)
    requires s.go != To("end") && s.alt != To("end")
    ensures StepOf(StepJson(s)) == Some(s)
  {
    LayersKeepOp(s);
    OpLooksAt(StepJson(s).fields, OpFields(s.op));
    OpReadsBack(s.op);
    ConditionsReadBack(s.op, s.conditions);
    JumpsReadBack(GuardedFields(s.op, s.conditions), s.id, s.go, s.alt);
  }

  // ---- The installed steps, spelled out ----

  lemma Three()
    ensures Decimals(3) == "3" && Duration(180) == "3m"
  {
  }

  lemma NoConditions(op: Op)
    ensures GuardedFields(op, []) == OpFields(op)
  {
  }

  lemma StillThisRunSpelled()
    ensures CondList(StillThisAwayRun()) ==
            [Obj(map["op" := Str("=="), "left_var" := Str("away_now"), "right_var" := Str("_run_id")])]
  {
    var cs := StillThisAwayRun();
    assert CondList(cs[..0]) == [];
  }

  lemma SkipConditionsSpelled()
    ensures CondList([Exists(Pending), Differs(Pending, Blank)]) ==
            [ Obj(map["op" := Str("exists"), "left_var" := Str("pending")]),
              Obj(map["op" := Str("!="), "left_var" := Str("pending"), "right_const" := Str(""),
                      "logic" := Str("and")]) ]
  {
    var cs := [Exists(Pending), Differs(Pending, Blank)];
    assert cs[..1] == [Exists(Pending)] && cs[..1][..0] == [];
    assert CondList(cs[..1]) == [CondJson(cs[0], true)];
  }

  /** The flow of a presence_inside, in the program's own words: cancel, then hotspot on whatever happened. */
  lemma InsideStepsSpelled()
    ensures StepList(InsideFlow()) ==
            [ Obj(map["type" := Str("action"), "function" := Str("set_state"),
                      "params" := Obj(map["name" := Str("eel_hotspot_away"), "static" := Str("")]),
                      "goto_alt" := Str("eel_step_hotspot_on"), "id" := Str("eel_step_cancel_away")]),
              Obj(map["type" := Str("action"), "action" := Str("eel_hotspot_on"),
                      "goto_alt" := Str("end"), "id" := Str("eel_step_hotspot_on")]) ]
  {
  }

  /** The flow of a presence_far: read, skip, arm, wait three minutes, re-read, hotspot off, clear. */
  lemma AwayStepsSpelled()
    ensures |StepList(AwayFlow())| == 7
    ensures StepList(AwayFlow())[..4] ==
            [ Obj(map["type" := Str("get"), "function" := Str("state"),
                      "params" := Obj(map["name" := Str("eel_hotspot_away")]),
                      "mapping" := Obj(map["state" := Str("pending")]),
                      "goto_alt" := Str("end"), "id" := Str("eel_step_read_pending")]),
              Obj(map["type" := Str("branch"),
                      "if" := Arr([Obj(map["op" := Str("exists"), "left_var" := Str("pending")]),
                                   Obj(map["op" := Str("!="), "left_var" := Str("pending"),
                                           "right_const" := Str(""), "logic" := Str("and")])]),
                      "goto" := Str("end"), "id" := Str("eel_step_away_already")]),
              Obj(map["type" := Str("action"), "function" := Str("set_state"),
                      "params" := Obj(map["name" := Str("eel_hotspot_away"), "template" := Str("{{_run_id}}")]),
                      "goto_alt" := Str("end"), "id" := Str("eel_step_arm_away")]),
              Obj(map["type" := Str("wait"), "params" := Obj(map["duration" := Str("3m")]),
                      "goto_alt" := Str("eel_step_clear_away"), "id" := Str("eel_step_wait_away")]) ]
    ensures StepList(AwayFlow())[4..] ==
            [ Obj(map["type" := Str("get"), "function" := Str("state"),
                      "params" := Obj(map["name" := Str("eel_hotspot_away")]),
                      "mapping" := Obj(map["state" := Str("away_now")]),
                      "goto_alt" := Str("eel_step_clear_away"), "id" := Str("eel_step_read_away")]),
              Obj(map["type" := Str("action"), "action" := Str("eel_hotspot_off"),
                      "if" := Arr([Obj(map["op" := Str("=="), "left_var" := Str("away_now"),
                                           "right_var" := Str("_run_id")])]),
                      "goto_alt" := Str("eel_step_clear_away"), "id" := Str("eel_step_hotspot_off")]),
              Obj(map["type" := Str("action"), "function" := Str("set_state"),
                      "params" := Obj(map["name" := Str("eel_hotspot_away"), "static" := Str("")]),
                      "if" := Arr([Obj(map["op" := Str("=="), "left_var" := Str("away_now"),
                                           "right_var" := Str("_run_id")])]),
                      "goto_alt" := Str("end"), "id" := Str("eel_step_clear_away")]) ]
  {
    Three();
    StillThisRunSpelled();
    SkipConditionsSpelled();
    assert "{{" + VarName(OwnRunId) + "}}" == "{{_run_id}}";
  }

  // ---- Sources and actions, field by field ----

  /** A source listens to the session's phone-key signal; it filters on its kind exactly if it has one. */
  lemma SourceSpelled(id: string, name: string, kind: string)
    ensures var j := DbusSource(id, name, kind);
            && Id(j) == id && ("filters" in j.fields <==> kind != "")
            && (kind != "" ==> j.fields["filters"] == Obj(map["arg0" := Str(kind)]))
            && "signal" in j.fields && j.fields["signal"] == Str("PhoneKeyEvent")
  {
    assert |"id"| == 2 && |"filters"| == 7 && |"signal"| == 6;
  }

  /** A tether call sets the property of that name to the value asked for. */
  lemma TetherSpelled(id: string, name: string, on: bool)
    ensures var j := TetherAction(id, name, on);
            && Id(j) == id && "args" in j.fields
            && j.fields["args"] ==
               Arr([ Obj(map["type" := Str("s"), "value" := Str("Tethering")]),
                     Obj(map["type" := Str("v:b"), "value" := Bool(on)]) ])
            && "method" in j.fields && j.fields["method"] == Str("SetProperty")
  {
    assert |"id"| == 2 && |"args"| == 4 && |"method"| == 6;
  }

  lemma FlowSpelled(f: FlowSpec)
    ensures var j := FlowJson(f);
            && Id(j) == f.id && "triggers" in j.fields && "steps" in j.fields
            && j.fields["triggers"] == Arr([Str(f.trigger)]) && j.fields["steps"] == Arr(StepList(f.steps))
  {
    assert |"id"| == 2 && |"steps"| == 5 && |"triggers"| == 8;
  }

  // ---- Reading whole flows back ----

  /** Every jump of either flow goes to a named step, never to one called "end". */
  lemma NoStepIsCalledEnd(kind: Kind, k: nat)
    requires k < |Program(kind)|
    ensures Program(kind)[k].go != To("end") && Program(kind)[k].alt != To("end")
  {
    assert |"end"| == 3 && |"eel_step_clear_away"| == 19 && |"eel_step_hotspot_on"| == 19;
  }

  /** The steps installed for a flow read back, one by one, as the program the theorems about runs are about. */
  lemma ProgramReadsBack(kind: Kind)
    ensures |StepList(Program(kind))| == |Program(kind)|
    ensures forall k :: 0 <= k < |Program(kind)| ==> StepOf(StepList(Program(kind))[k]) == Some(Program(kind)[k])
  {
    forall k | 0 <= k < |Program(kind)| ensures StepOf(StepList(Program(kind))[k]) == Some(Program(kind)[k]) {
      NoStepIsCalledEnd(kind, k);
      StepReadsBack(Program(kind)[k]);
    }
  }
}

/** The logging decorator for task methods: it formats its message with
    Python's `%` operator over named fields, logs a "Starting" line, calls the
    wrapped method, logs a "Completed" line and returns the method's result.
    Only the `%(name)s` and `%%` directives are modelled. */
module TaskLog {
  import opened Wrappers

  /** A parsed `%` template: a literal character or a named `%(name)s`
      field. */
  datatype Piece = Char(c: char) | Field(name: string)

  /** What applying `%` can raise. */
  datatype FormatError = KeyError(key: string) | BadDirective

  /** How a character moves the parenthesis depth inside a key. */
  function Step(c: char): int {
    if c == '(' then 1 else if c == ')' then -1 else 0
  }

  /** The net parenthesis depth a string adds. */
  function Nest(s: string): int {
    if |s| == 0 then 0 else Step(s[0]) + Nest(s[1..])
  }

  /** The index of the `)` that closes a key, scanning from `i` at
      parenthesis depth `depth`; a key may hold balanced parentheses. */
  function KeyEnd(t: string, i: nat, depth: nat): (r: Option<nat>)
    requires i <= |t| && depth >= 1
    ensures r.Some? ==> i <= r.value < |t| && t[r.value] == ')'
    decreases |t| - i
  {
    if i == |t| then None
    else if t[i] == ')' && depth == 1 then Some(i)
    else KeyEnd(t, i + 1, depth + Step(t[i]))
  }

  /** Scanning `s` inside a key open at `depth` never closes the key. */
  predicate InsideKey(s: string, depth: int)
    decreases |s|
  {
    |s| == 0 || (depth + Step(s[0]) >= 1 && InsideKey(s[1..], depth + Step(s[0])))
  }

  /** Scanning over a stretch that stays inside the key only moves the
      depth. */
  lemma {:induction false} ScanKey(t: string, i: nat, n: string, depth: nat)
    requires depth >= 1 && i + |n| <= |t| && t[i..i + |n|] == n
    requires InsideKey(n, depth)
    ensures depth + Nest(n) >= 1
    ensures KeyEnd(t, i, depth) == KeyEnd(t, i + |n|, depth + Nest(n))
    decreases |n|
  {
    if |n| > 0 {
      assert t[i] == n[0];
      assert t[i + 1..i + |n|] == n[1..];
      ScanKey(t, i + 1, n[1..], depth + Step(n[0]));
    }
  }

  /** Write pieces back as a template, doubling every literal `%`. */
  function Render(ps: seq<Piece>): string {
    if |ps| == 0 then ""
    else
      match ps[0]
      case Char(c) => (if c == '%' then "%%" else [c]) + Render(ps[1..])
      case Field(n) => "%(" + n + ")s" + Render(ps[1..])
  }

  /** A field name `%` reads back whole: its parentheses balance, so the
      `)` after it is the one that closes the key. */
  predicate ReadableName(n: string) {
    InsideKey(n, 1) && Nest(n) == 0
  }

  /** Pieces whose field names can all be read back. */
  predicate Readable(ps: seq<Piece>) {
    forall i :: 0 <= i < |ps| && ps[i].Field? ==> ReadableName(ps[i].name)
  }

  /** A name without parentheses can be read back. */
  lemma {:induction false} PlainNameReadable(n: string)
    requires forall i :: 0 <= i < |n| ==> n[i] != '(' && n[i] != ')'
    ensures InsideKey(n, 1) && Nest(n) == 0
  {
    if |n| > 0 {
      PlainNameReadable(n[1..]);
    }
  }

  lemma ReadableTail(ps: seq<Piece>)
    requires |ps| > 0 && Readable(ps)
    ensures Readable(ps[1..])
  {
    forall i | 0 <= i < |ps[1..]| && ps[1..][i].Field?
      ensures ReadableName(ps[1..][i].name)
    {
      assert ps[1..][i] == ps[i + 1];
    }
  }

  /** The text one piece stands for. */
  function PieceText(p: Piece, kw: map<string, string>): Result<string, FormatError> {
    match p
    case Char(c) => Success([c])
    case Field(n) => if n in kw then Success(kw[n]) else Failure(KeyError(n))
  }

  /** Substitute the named values; a name missing from `kw` raises
      KeyError for it. */
  function Apply(ps: seq<Piece>, kw: map<string, string>): (r: Result<string, FormatError>)
    ensures r.Success? <==> forall i :: 0 <= i < |ps| && ps[i].Field? ==> ps[i].name in kw
    ensures r.Failure? ==> exists i :: 0 <= i < |ps| && ps[i].Field? && r.error == KeyError(ps[i].name) && ps[i].name !in kw
  {
    if |ps| == 0 then Success("")
    else
      var head := PieceText(ps[0], kw);
      if head.Failure? then head
      else
        var tail := Apply(ps[1..], kw);
        if tail.Failure? then
          var i :| 0 <= i < |ps[1..]| && ps[1..][i].Field? && tail.error == KeyError(ps[1..][i].name) && ps[1..][i].name !in kw;
          assert ps[i + 1] == ps[1..][i];
          tail
        else
          assert forall i :: 1 <= i < |ps| ==> ps[i] == ps[1..][i - 1];
          Success(head.value + tail.value)
  }

  /** Put `s` in front of a successful result. */
  function Prefix(s: string, r: Result<string, FormatError>): Result<string, FormatError> {
    match r
    case Success(x) => Success(s + x)
    case Failure(e) => Failure(e)
  }

  /** `template % kw`, left to right as Python evaluates it: text is
      copied, `%%` gives `%`, and a `%(key)s` looks its key up as soon as
      the key has been read, so the first problem met is the one raised. */
  function Format(t: string, kw: map<string, string>): (r: Result<string, FormatError>)
    ensures (forall i :: 0 <= i < |t| ==> t[i] != '%') ==> r == Success(t)
    ensures r.Failure? && r.error.KeyError? ==> r.error.key !in kw
    decreases |t|
  {
    if |t| == 0 then Success("")
    else if t[0] != '%' then
      assert [t[0]] + t[1..] == t;
      Prefix([t[0]], Format(t[1..], kw))
    else if |t| >= 2 && t[1] == '%' then Prefix("%", Format(t[2..], kw))
    else if |t| >= 2 && t[1] == '(' then
      match KeyEnd(t, 2, 1)
      case None => Failure(BadDirective)
      case Some(close) =>
        var key := t[2..close];
        if key !in kw then Failure(KeyError(key))
        else if close + 1 < |t| && t[close + 1] == 's' then Prefix(kw[key], Format(t[close + 2..], kw))
        else Failure(BadDirective)
    else Failure(BadDirective)
  }

  /** A rendered literal character formats to itself. */
  lemma FormatCharStep(c: char, rest: string, kw: map<string, string>)
    ensures Format((if c == '%' then "%%" else [c]) + rest, kw) == Prefix([c], Format(rest, kw))
  {
    var t := (if c == '%' then "%%" else [c]) + rest;
    if c == '%' {
      assert t[0] == '%' && t[1] == '%';
      assert t[2..] == rest;
    } else {
      assert t[0] == c && t[1..] == rest;
    }
  }

  /** A rendered field with a readable name looks that name up. */
  lemma FormatFieldStep(n: string, rest: string, kw: map<string, string>)
    requires ReadableName(n)
    ensures Format("%(" + n + ")s" + rest, kw)
            == if n in kw then Prefix(kw[n], Format(rest, kw)) else Failure(KeyError(n))
  {
    var t := "%(" + n + ")s" + rest;
    assert t[0] == '%' && t[1] == '(';
    assert t[2..2 + |n|] == n;
    assert t[2 + |n|] == ')' && t[2 + |n| + 1] == 's';
    ScanKey(t, 2, n, 1);
    assert KeyEnd(t, 2, 1) == Some(2 + |n|);
    assert t[2 + |n| + 2..] == rest;
  }

  /** Formatting a written-out template substitutes its pieces: the
      left-to-right `%` agrees with the piecewise meaning, errors included. */
  lemma {:induction false} FormatRender(ps: seq<Piece>, kw: map<string, string>)
    requires Readable(ps)
    ensures Format(Render(ps), kw) == Apply(ps, kw)
  {
    if |ps| > 0 {
      ReadableTail(ps);
      FormatRender(ps[1..], kw);
      var rest := Render(ps[1..]);
      match ps[0]
      case Char(c) =>
        assert Render(ps) == (if c == '%' then "%%" else [c]) + rest;
        FormatCharStep(c, rest, kw);
      case Field(n) =>
        assert ReadableName(ps[0].name);
        assert Render(ps) == "%(" + n + ")s" + rest;
        FormatFieldStep(n, rest, kw);
    }
  }

  /** The pieces of a literal string. */
  function Literal(s: string): (ps: seq<Piece>)
    ensures |ps| == |s|
    ensures forall i :: 0 <= i < |s| ==> ps[i] == Char(s[i])
  {
    seq(|s|, i requires 0 <= i < |s| => Char(s[i]))
  }

  /** A literal string formats to itself. */
  lemma {:induction false} ApplyLiteral(s: string, kw: map<string, string>)
    ensures Apply(Literal(s), kw) == Success(s)
  {
    if |s| > 0 {
      assert Literal(s)[1..] == Literal(s[1..]);
      ApplyLiteral(s[1..], kw);
      assert [s[0]] + s[1..] == s;
    }
  }

  /** One substitution step: the first piece's text, then the rest. */
  lemma ApplyCons(ps: seq<Piece>, kw: map<string, string>)
    requires |ps| > 0
    ensures PieceText(ps[0], kw).Failure? ==> Apply(ps, kw) == PieceText(ps[0], kw)
    ensures PieceText(ps[0], kw).Success? ==> Apply(ps, kw) == Prefix(PieceText(ps[0], kw).value, Apply(ps[1..], kw))
  {
  }

  lemma PrefixAssoc(h: string, x: string, y: string)
    ensures Prefix(h, Success(x + y)) == Success((h + x) + y)
  {
    assert h + (x + y) == (h + x) + y;
  }

  lemma {:induction false} ApplyConcat(a: seq<Piece>, b: seq<Piece>, kw: map<string, string>)
    requires Apply(a, kw).Success? && Apply(b, kw).Success?
    ensures Apply(a + b, kw) == Success(Apply(a, kw).value + Apply(b, kw).value)
  {
    var tb := Apply(b, kw).value;
    if |a| > 0 {
      var t := a[1..];
      assert (a + b)[1..] == t + b;
      assert (a + b)[0] == a[0];
      ApplyCons(a, kw);
      ApplyCons(a + b, kw);
      var head := PieceText(a[0], kw);
      assert head.Success?;
      assert Apply(t, kw).Success?;
      ApplyConcat(t, b, kw);
      PrefixAssoc(head.value, Apply(t, kw).value, tb);
    } else {
      assert a + b == b;
      assert Apply(a, kw) == Success("");
      assert "" + tb == tb;
    }
  }

  lemma {:induction false} RenderConcat(a: seq<Piece>, b: seq<Piece>)
    ensures Render(a + b) == Render(a) + Render(b)
  {
    if |a| > 0 {
      assert (a + b)[1..] == a[1..] + b;
      assert (a + b)[0] == a[0];
      RenderConcat(a[1..], b);
    } else {
      assert a + b == b;
    }
  }

  /** A string without `%` renders from its literal pieces as itself. */
  lemma {:induction false} RenderLiteral(s: string)
    requires forall i :: 0 <= i < |s| ==> s[i] != '%'
    ensures Render(Literal(s)) == s
  {
    if |s| > 0 {
      assert Literal(s)[1..] == Literal(s[1..]);
      RenderLiteral(s[1..]);
      assert [s[0]] + s[1..] == s;
    }
  }

  /** The template of the two log lines: `Task %(task)s | <phase> %(msg)s`. */
  function LineTemplate(phase: string): seq<Piece> {
    Literal("Task ") + [Field("task")] + Literal(" | " + phase + " ") + [Field("msg")]
  }

  const Starting: string := "Starting: "
  const Completed: string := "Completed:"

  /** One log line for the task `uuid` and the formatted message `m`. */
  function LogLine(phase: string, uuid: string, m: string): (line: string)
    ensures line == "Task " + uuid + " | " + phase + " " + m
  {
    var params := map["task" := uuid, "msg" := m];
    ApplyLiteral("Task ", params);
    ApplyLiteral(" | " + phase + " ", params);
    ApplyConcat(Literal("Task "), [Field("task")], params);
    ApplyConcat(Literal("Task ") + [Field("task")], Literal(" | " + phase + " "), params);
    ApplyConcat(Literal("Task ") + [Field("task")] + Literal(" | " + phase + " "), [Field("msg")], params);
    Apply(LineTemplate(phase), params).value
  }

  /** The two lines the decorator writes, spelled out. */
  lemma PhaseLines(uuid: string, m: string)
    ensures LogLine(Starting, uuid, m) == "Task " + uuid + " | Starting:  " + m
    ensures LogLine(Completed, uuid, m) == "Task " + uuid + " | Completed: " + m
  {
    assert "Task " + uuid + " | " + Starting + " " + m == "Task " + uuid + " | Starting:  " + m;
    assert "Task " + uuid + " | " + Completed + " " + m == "Task " + uuid + " | Completed: " + m;
  }

  /** Joining two templates whose keys read back gives one whose keys read
      back. */
  lemma ReadableConcat(a: seq<Piece>, b: seq<Piece>)
    requires Readable(a) && Readable(b)
    ensures Readable(a + b)
  {
    forall i | 0 <= i < |a + b| && (a + b)[i].Field?
      ensures ReadableName((a + b)[i].name)
    {
      if i < |a| {
        assert (a + b)[i] == a[i];
      } else {
        assert (a + b)[i] == b[i - |a|];
      }
    }
  }

  /** The line template written out is `Task %(task)s | <phase> %(msg)s`. */
  lemma {:induction false} LineTemplateRenders(phase: string)
    requires forall i :: 0 <= i < |phase| ==> phase[i] != '%'
    ensures Render(LineTemplate(phase)) == "Task %(task)s | " + phase + " %(msg)s"
  {
    var sep := " | " + phase + " ";
    assert forall i :: 3 <= i < |sep| - 1 ==> sep[i] == phase[i - 3];
    var a, b, c, d := Literal("Task "), [Field("task")], Literal(sep), [Field("msg")];
    assert forall i :: 0 <= i < |"Task "| ==> "Task "[i] != '%';
    RenderLiteral("Task ");
    RenderLiteral(sep);
    assert b[1..] == [] && d[1..] == [];
    assert Render(b) == "%(" + "task" + ")s" + "";
    assert Render(d) == "%(" + "msg" + ")s" + "";
    RenderConcat(a, b);
    RenderConcat(a + b, c);
    RenderConcat(a + b + c, d);
    LineTemplateSplits(phase);
  }

  /** A string identity kept apart, so the proof that uses it does not
      spell out the literals. */
  lemma LineTemplateSplits(phase: string)
    ensures "Task " + ("%(" + "task" + ")s" + "") + (" | " + phase + " ") + ("%(" + "msg" + ")s" + "")
            == "Task %(task)s | " + phase + " %(msg)s"
  {
  }

  /** `%` applied to the written-out line template gives the log line. */
  lemma LineFormats(phase: string, uuid: string, m: string)
    ensures Format(Render(LineTemplate(phase)), map["task" := uuid, "msg" := m]) == Success(LogLine(phase, uuid, m))
  {
    var params := map["task" := uuid, "msg" := m];
    LineTemplateReadable(phase);
    FormatRender(LineTemplate(phase), params);
    assert Apply(LineTemplate(phase), params).Success?;
  }

  lemma LineTemplateReadable(phase: string)
    ensures Readable(LineTemplate(phase))
  {
    var a, b, c, d := Literal("Task "), [Field("task")], Literal(" | " + phase + " "), [Field("msg")];
    PlainNameReadable("task");
    PlainNameReadable("msg");
    assert Readable(b) && Readable(d);
    ReadableConcat(a, b);
    ReadableConcat(a + b, c);
    ReadableConcat(a + b + c, d);
  }

  /** The two phases contain no `%`. */
  lemma PhasesPlain()
    ensures forall i :: 0 <= i < |Starting| ==> Starting[i] != '%'
    ensures forall i :: 0 <= i < |Completed| ==> Completed[i] != '%'
  {
  }

  /** The decorator's two templates, `Task %(task)s | Starting:  %(msg)s`
      and `Task %(task)s | Completed: %(msg)s`, formatted with the task's
      uuid and the message, give the two log lines. */
  lemma SourceTemplatesFormat(uuid: string, m: string)
    ensures Format("Task %(task)s | Starting:  %(msg)s", map["task" := uuid, "msg" := m])
            == Success("Task " + uuid + " | Starting:  " + m)
    ensures Format("Task %(task)s | Completed: %(msg)s", map["task" := uuid, "msg" := m])
            == Success("Task " + uuid + " | Completed: " + m)
  {
    PhasesPlain();
    LineTemplateRenders(Starting);
    LineTemplateRenders(Completed);
    PhaseTemplateSplits();
    LineFormats(Starting, uuid, m);
    LineFormats(Completed, uuid, m);
    PhaseLines(uuid, m);
  }

  /** A string identity kept apart, so the proof that uses it does not
      spell out the literals. */
  lemma PhaseTemplateSplits()
    ensures "Task %(task)s | " + Starting + " %(msg)s" == "Task %(task)s | Starting:  %(msg)s"
    ensures "Task %(task)s | " + Completed + " %(msg)s" == "Task %(task)s | Completed: %(msg)s"
  {
  }

  /** The log calls made and the result of one wrapped call. */
  datatype Logged<T> = Logged(log: seq<string>, outcome: Outcome<T>)

  /** The exception info raised when the message cannot be formatted. */
  function FormatException(e: FormatError): ExcInfo {
    match e
    case KeyError(k) => ExcInfo("KeyError", k, [])
    case BadDirective => ExcInfo("ValueError", "unsupported format character", [])
  }

  /** A call of a method decorated with `log_task_wrapper(log, msg, **kw)` on
      a task whose uuid is `uuid`, where the method itself ends with `call`. */
  function LogTaskWrapper<T>(log: seq<string>, msg: string, kw: map<string, string>, uuid: string, call: Outcome<T>): (r: Logged<T>)
    ensures Format(msg, kw).Failure? ==> r == Logged(log, Raised(FormatException(Format(msg, kw).error)))
    ensures Format(msg, kw).Success? ==>
              var m := Format(msg, kw).value;
              && r.outcome == call
              && r.log == log + [LogLine(Starting, uuid, m)] + (if call.Returned? then [LogLine(Completed, uuid, m)] else [])
  {
    match Format(msg, kw)
    case Failure(e) => Logged(log, Raised(FormatException(e)))
    case Success(m) =>
      var started := log + [LogLine(Starting, uuid, m)];
      match call
      case Returned(v) => Logged(started + [LogLine(Completed, uuid, m)], Returned(v))
      case Raised(exc) => Logged(started, Raised(exc))
  }

  /** A wrapped call that returns hands back its result unchanged and adds
      exactly two log lines, "Starting" then "Completed", each naming the
      task and the formatted message. */
  lemma WrapperReturns<T>(log: seq<string>, msg: string, kw: map<string, string>, uuid: string, v: T)
    requires Format(msg, kw).Success?
    ensures var r := LogTaskWrapper(log, msg, kw, uuid, Returned(v));
            var m := Format(msg, kw).value;
            && r.outcome == Returned(v)
            && |r.log| == |log| + 2
            && r.log[..|log|] == log
            && r.log[|log|] == "Task " + uuid + " | Starting:  " + m
            && r.log[|log| + 1] == "Task " + uuid + " | Completed: " + m
  {
    var m := Format(msg, kw).value;
    PhaseLines(uuid, m);
    var r := LogTaskWrapper(log, msg, kw, uuid, Returned(v));
    assert r.log == log + [LogLine(Starting, uuid, m)] + [LogLine(Completed, uuid, m)];
  }

  /** The pieces of the decorator test's message `"test %(a)s %(b)s"`. */
  function ExampleMessage(): seq<Piece> {
    Literal("test ") + [Field("a"), Char(' '), Field("b")]
  }

  lemma ExampleFieldsRender()
    ensures Render([Field("a"), Char(' '), Field("b")]) == "%(a)s %(b)s"
  {
    var ps := [Field("a"), Char(' '), Field("b")];
    assert ps[1..] == [Char(' '), Field("b")] && ps[1..][1..] == [Field("b")] && [Field("b")][1..] == [];
    assert Render([Field("b")]) == "%(b)s";
    assert Render([Char(' '), Field("b")]) == " %(b)s";
  }

  lemma ExampleMessageReadable()
    ensures Readable(ExampleMessage())
  {
    var ps := ExampleMessage();
    assert forall i :: 0 <= i < 5 ==> ps[i].Char?;
    assert ps[5] == Field("a") && ps[7] == Field("b");
    PlainNameReadable("a");
    PlainNameReadable("b");
  }

  lemma ExamplePrefixRenders()
    ensures Render(Literal("test ")) == "test "
  {
    var s := "test ";
    assert forall i :: 0 <= i < |s| ==> s[i] != '%';
    RenderLiteral(s);
  }

  lemma ExampleMessageRenders()
    ensures Render(ExampleMessage()) == "test %(a)s %(b)s"
  {
    var prefix, fields := Literal("test "), [Field("a"), Char(' '), Field("b")];
    assert ExampleMessage() == prefix + fields;
    ExamplePrefixRenders();
    ExampleFieldsRender();
    RenderConcat(prefix, fields);
    ExampleTemplateSplits();
  }

  /** A string identity kept apart, so the proof that uses it does not
      spell out the literals. */
  lemma ExampleTemplateSplits()
    ensures "test " + "%(a)s %(b)s" == "test %(a)s %(b)s"
  {
  }

  lemma ExampleFieldsApply()
    ensures Apply([Field("a"), Char(' '), Field("b")], map["a" := "10", "b" := "20"]) == Success("10 20")
  {
    var kw := map["a" := "10", "b" := "20"];
    var ps := [Field("a"), Char(' '), Field("b")];
    assert ps[1..] == [Char(' '), Field("b")] && ps[1..][1..] == [Field("b")] && [Field("b")][1..] == [];
    assert Apply([], kw) == Success("");
    assert "b" in kw && kw["b"] == "20" && "a" in kw && kw["a"] == "10";
    assert Apply([Field("b")], kw) == Success("20" + "");
    assert "20" + "" == "20";
    assert Apply([Char(' '), Field("b")], kw) == Success([' '] + "20");
    assert [' '] + "20" == " 20";
    assert Apply(ps, kw) == Success("10" + " 20");
    assert "10" + " 20" == "10 20";
  }

  lemma ExampleMessageApplies()
    ensures Apply(ExampleMessage(), map["a" := "10", "b" := "20"]) == Success("test 10 20")
  {
    var kw := map["a" := "10", "b" := "20"];
    ExampleFieldsApply();
    ApplyLiteral("test ", kw);
    ApplyConcat(Literal("test "), [Field("a"), Char(' '), Field("b")], kw);
    assert "test " + "10 20" == "test 10 20";
  }

  lemma ExampleMessageFormats()
    ensures Format("test %(a)s %(b)s", map["a" := "10", "b" := "20"]) == Success("test 10 20")
  {
    ExampleMessageReadable();
    ExampleMessageRenders();
    FormatRender(ExampleMessage(), map["a" := "10", "b" := "20"]);
    ExampleMessageApplies();
  }

  /** The two lines a returning wrapped call logs on an empty log. */
  lemma ReturningCallLines<T>(msg: string, kw: map<string, string>, uuid: string, m: string, v: T)
    requires Format(msg, kw) == Success(m)
    ensures LogTaskWrapper([], msg, kw, uuid, Returned(v))
            == Logged(["Task " + uuid + " | Starting:  " + m, "Task " + uuid + " | Completed: " + m], Returned(v))
  {
    WrapperReturns([], msg, kw, uuid, v);
    var log := LogTaskWrapper([], msg, kw, uuid, Returned(v)).log;
    assert log == [log[0], log[1]];
  }

  /** The decorator test: `"test %(a)s %(b)s"` with `a=10, b=20` on a task
      with uuid `some_uuid`, wrapping a method that returns 4. */
  lemma LogMethodExample()
    ensures LogTaskWrapper([], "test %(a)s %(b)s", map["a" := "10", "b" := "20"], "some_uuid", Returned(4))
            == Logged(["Task " + "some_uuid" + " | Starting:  " + "test 10 20",
                       "Task " + "some_uuid" + " | Completed: " + "test 10 20"], Returned(4))
  {
    ExampleMessageFormats();
    ReturningCallLines("test %(a)s %(b)s", map["a" := "10", "b" := "20"], "some_uuid", "test 10 20", 4);
  }

  // The four lemmas below take their literal strings as parameters fixed by
  // `requires`: the verifier then treats each as one term and spells out
  // its characters only where a proof step asks for them, instead of at
  // every mention.

  /** Python reports the first problem from the left: a missing key comes
      before a bad directive later in the template. */
  lemma MissingKeyBeforeBadDirective(t: string)
    requires t == "%(x)s%q"
    ensures Format(t, map[]) == Failure(KeyError("x"))
  {
    assert t[0] == '%' && t[1] == '(' && t[2] == 'x' && t[3] == ')';
    assert KeyEnd(t, 3, 1) == Some(3);
    assert t[2..3] == "x";
  }

  /** `a(b)c` reads back whole: the inner `)` only closes the inner `(`. */
  lemma BalancedName(n: string)
    requires n == "a(b)c"
    ensures ReadableName(n)
  {
    assert n[0] == 'a' && n[1] == '(' && n[2] == 'b' && n[3] == ')' && n[4] == 'c';
    assert n[5..] == [] && InsideKey(n[5..], 1) && Nest(n[5..]) == 0;
    assert n[4..][1..] == n[5..];
    assert InsideKey(n[4..], 1) && Nest(n[4..]) == 0;
    assert n[3..][1..] == n[4..];
    assert InsideKey(n[3..], 2) && Nest(n[3..]) == -1;
    assert n[2..][1..] == n[3..];
    assert InsideKey(n[2..], 2) && Nest(n[2..]) == -1;
    assert n[1..][1..] == n[2..];
    assert InsideKey(n[1..], 1) && Nest(n[1..]) == 0;
  }

  /** The template is the key wrapped in `%(` and `)s`. */
  lemma BalancedTemplateSplits(t: string, n: string)
    requires t == "%(a(b)c)s" && n == "a(b)c"
    ensures t == "%(" + n + ")s" + ""
  {
  }

  /** A key may hold balanced parentheses: `"%(a(b)c)s" % {"a(b)c": "x"}`
      gives `"x"`. */
  lemma BalancedKey(t: string, kw: map<string, string>)
    requires t == "%(a(b)c)s" && kw == map["a(b)c" := "x"]
    ensures Format(t, kw) == Success("x")
  {
    var n := "a(b)c";
    BalancedName(n);
    BalancedTemplateSplits(t, n);
    FormatFieldStep(n, "", kw);
    assert Format("", kw) == Success("");
    assert "x" + "" == "x";
  }
}

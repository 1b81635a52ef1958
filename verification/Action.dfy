/** Building an exec action from Lua arguments (src/LMail.cxx), and the argument arrays of the
    exec relays. A Lua error abandons the action. */
module ActionModel {
  import opened Base

  const MAX_EXEC := 32
  const MAX_ENV := 32

  datatype ActionType = UNDEFINED | DISCARD | REJECT | CONNECT | EXEC | EXEC_RAW

  /** A Lua number; `normal` excludes zero, subnormal numbers, infinities and NaN. */
  datatype LuaNumber = LuaNumber(value: real, normal: bool)

  /** Strings may look like numbers, and numbers convert to text. */
  datatype LuaValue =
    | Str(text: string, number: Option<LuaNumber>)
    | Num(num: LuaNumber, shown: string)
    | Table(entries: seq<(LuaValue, LuaValue)>)
    | Other

  datatype LuaError =
    | TOO_MANY_VARIABLES | NAME_NOT_STRING | VALUE_NOT_STRING
    | KEY_NOT_STRING | ENV_NOT_TABLE | TIMEOUT_NOT_NUMBER | BAD_TIMEOUT | UNKNOWN_OPTION
    | NOT_ENOUGH_PARAMETERS | TOO_MANY_ARGUMENTS | NOT_A_STRING

  /** A valid timeout in seconds: `None` is the source's negative default. */
  datatype Action = Action(kind: ActionType, exec: seq<string>, env: seq<string>, timeout: Option<real>)

  datatype Result<T> = Ok(value: T) | Error(error: LuaError)

  // ------------------------------------------------------------ as functions

  function EnvFrom(env: seq<string>, entries: seq<(LuaValue, LuaValue)>): Result<seq<string>>
    decreases |entries|
  {
    if entries == [] then Ok(env)
    else if |env| >= MAX_ENV then Error(TOO_MANY_VARIABLES)
    else if !entries[0].0.Str? then Error(NAME_NOT_STRING)
    else if !entries[0].1.Str? then Error(VALUE_NOT_STRING)
    else EnvFrom(env + [entries[0].0.text + "=" + entries[0].1.text], entries[1..])
  }

  function NumberOf(v: LuaValue): Option<LuaNumber> {
    match v
    case Str(_, number) => number
    case Num(num, _) => Some(num)
    case _ => None
  }

  function OptionsFrom(a: Action, entries: seq<(LuaValue, LuaValue)>): Result<Action>
    decreases |entries|
  {
    if entries == [] then Ok(a)
    else
      var (key, value) := entries[0];
      if !key.Str? then Error(KEY_NOT_STRING)
      else if key.text == "env" then
        if !value.Table? then Error(ENV_NOT_TABLE)
        else
          var env := EnvFrom(a.env, value.entries);
          if env.Error? then Error(env.error) else OptionsFrom(a.(env := env.value), entries[1..])
      else if key.text == "timeout" then
        var number := NumberOf(value);
        if number.None? then Error(TIMEOUT_NOT_NUMBER)
        else if !number.value.normal || number.value.value <= 0.0 || number.value.value > 3600.0 then Error(BAD_TIMEOUT)
        else OptionsFrom(a.(timeout := Some(number.value.value)), entries[1..])
      else Error(UNKNOWN_OPTION)
  }

  function TextOf(v: LuaValue): Option<string> {
    match v
    case Str(text, _) => Some(text)
    case Num(_, shown) => Some(shown)
    case _ => None
  }

  function ArgumentsFrom(exec: seq<string>, args: seq<LuaValue>): Result<seq<string>>
    decreases |args|
  {
    if args == [] then Ok(exec)
    else if |exec| >= MAX_EXEC then Error(TOO_MANY_ARGUMENTS)
    else if TextOf(args[0]).None? then Error(NOT_A_STRING)
    else ArgumentsFrom(exec + [TextOf(args[0]).value], args[1..])
  }

  /** `args` are the arguments behind the mail object itself. */
  function NewExec(kind: ActionType, args: seq<LuaValue>): Result<Action> {
    var a := Action(kind, [], [], None);
    if args == [] then Error(NOT_ENOUGH_PARAMETERS)
    else if |args| > 1 && args[|args| - 1].Table? then
      var options := OptionsFrom(a, args[|args| - 1].entries);
      if options.Error? then Error(options.error)
      else WithArguments(options.value, args[..|args| - 1])
    else WithArguments(a, args)
  }

  function WithArguments(a: Action, args: seq<LuaValue>): Result<Action> {
    var exec := ArgumentsFrom(a.exec, args);
    if exec.Error? then Error(exec.error) else Ok(a.(exec := exec.value))
  }

  // ------------------------------------------------------------ what is built

  /** An action the relays can run. */
  predicate Runnable(a: Action) {
    && 1 <= |a.exec| <= 32
    && |a.env| <= 32
    && (a.timeout.Some? ==> 0.0 < a.timeout.value <= 3600.0)
  }

  /** Environment variables are taken, as NAME=VALUE in order, exactly when all names and values
      are strings and they fit. */
  lemma {:induction false} EnvIff(env: seq<string>, entries: seq<(LuaValue, LuaValue)>)
    requires |env| <= 32
    ensures EnvFrom(env, entries).Ok?
       <==> |env| + |entries| <= 32 && forall i :: 0 <= i < |entries| ==> entries[i].0.Str? && entries[i].1.Str?
    ensures EnvFrom(env, entries).Ok? ==> EnvFrom(env, entries).value == env + Pairs(entries)
    decreases |entries|
  {
    if entries != [] && |env| < MAX_ENV && entries[0].0.Str? && entries[0].1.Str? {
      var pair := entries[0].0.text + "=" + entries[0].1.text;
      EnvIff(env + [pair], entries[1..]);
      assert env + [pair] + Pairs(entries[1..]) == env + Pairs(entries);
      if EnvFrom(env, entries).Ok? {
        assert forall i :: 0 < i < |entries| ==> entries[i] == entries[1..][i - 1];
      }
    }
  }

  function Pairs(entries: seq<(LuaValue, LuaValue)>): seq<string> {
    if entries == [] then []
    else
      [if entries[0].0.Str? && entries[0].1.Str? then entries[0].0.text + "=" + entries[0].1.text else ""] + Pairs(entries[1..])
  }

  lemma PairsCount(entries: seq<(LuaValue, LuaValue)>)
    ensures |Pairs(entries)| == |entries|
  {
  }

  // ------------------------------------------------------------ the options table

  predicate AllStrings(entries: seq<(LuaValue, LuaValue)>) {
    forall i :: 0 <= i < |entries| ==> entries[i].0.Str? && entries[i].1.Str?
  }

  predicate IsEnvOption(option: (LuaValue, LuaValue)) {
    option.0.Str? && option.0.text == "env" && option.1.Table? && AllStrings(option.1.entries)
  }

  /** Up to an hour. */
  predicate IsTimeout(n: LuaNumber) {
    n.normal && 0.0 < n.value <= 3600.0
  }

  /** A number, or a string that looks like one. */
  predicate IsTimeoutOption(option: (LuaValue, LuaValue)) {
    && option.0.Str? && option.0.text == "timeout"
    && ((option.1.Num? && IsTimeout(option.1.num))
        || (option.1.Str? && option.1.number.Some? && IsTimeout(option.1.number.value)))
  }

  function Seconds(option: (LuaValue, LuaValue)): real
    requires IsTimeoutOption(option)
  {
    if option.1.Num? then option.1.num.value else option.1.number.value.value
  }

  predicate ValidOptions(entries: seq<(LuaValue, LuaValue)>) {
    forall i :: 0 <= i < |entries| ==> IsEnvOption(entries[i]) || IsTimeoutOption(entries[i])
  }

  /** The variables of all `env` tables, in order. */
  function Variables(entries: seq<(LuaValue, LuaValue)>): seq<string> {
    if entries == [] then []
    else (if IsEnvOption(entries[0]) then Pairs(entries[0].1.entries) else []) + Variables(entries[1..])
  }

  /** The number of the last `timeout`, or `default` if there is none. */
  function LastTimeout(entries: seq<(LuaValue, LuaValue)>, default: Option<real>): Option<real> {
    if entries == [] then default
    else
      var n := |entries| - 1;
      if IsTimeoutOption(entries[n]) then Some(Seconds(entries[n])) else LastTimeout(entries[..n], default)
  }

  lemma {:induction false} LastTimeoutFirst(entries: seq<(LuaValue, LuaValue)>, default: Option<real>)
    requires entries != []
    ensures LastTimeout(entries, default)
         == LastTimeout(entries[1..], if IsTimeoutOption(entries[0]) then Some(Seconds(entries[0])) else default)
    decreases |entries|
  {
    var n := |entries| - 1;
    if n > 0 {
      assert entries[1..][n - 1] == entries[n] && entries[1..][..n - 1] == entries[..n][1..];
      LastTimeoutFirst(entries[..n], default);
    }
  }

  lemma ValidOptionsTail(entries: seq<(LuaValue, LuaValue)>)
    requires entries != []
    ensures ValidOptions(entries) <==> (IsEnvOption(entries[0]) || IsTimeoutOption(entries[0])) && ValidOptions(entries[1..])
  {
    if ValidOptions(entries[1..]) {
      forall i | 0 < i < |entries|
        ensures entries[i] == entries[1..][i - 1]
      {
      }
    }
  }

  /** Options are taken exactly when each is a table of variables, all strings, or a time, and the
      variables fit. The action then has all variables in order behind those it had, and the
      last of the times. */
  lemma {:induction false} OptionsIff(a: Action, entries: seq<(LuaValue, LuaValue)>)
    requires |a.env| <= 32
    ensures OptionsFrom(a, entries).Ok? <==> ValidOptions(entries) && |a.env| + |Variables(entries)| <= 32
    ensures OptionsFrom(a, entries).Ok? ==>
              OptionsFrom(a, entries).value == a.(env := a.env + Variables(entries), timeout := LastTimeout(entries, a.timeout))
    decreases |entries|
  {
    if entries == [] {
      assert a.env + [] == a.env;
    } else {
      ValidOptionsTail(entries);
      LastTimeoutFirst(entries, a.timeout);
      var (key, value) := entries[0];
      if key.Str? && key.text == "env" && value.Table? {
        EnvIff(a.env, value.entries);
        if AllStrings(value.entries) {
          VariablesBehind(a.env, entries);
        }
        if EnvFrom(a.env, value.entries).Ok? {
          OptionsIff(a.(env := a.env + Pairs(value.entries)), entries[1..]);
        }
      } else if IsTimeoutOption(entries[0]) {
        OptionsIff(a.(timeout := Some(Seconds(entries[0]))), entries[1..]);
        assert Variables(entries) == Variables(entries[1..]);
      }
    }
  }

  lemma VariablesBehind(env: seq<string>, entries: seq<(LuaValue, LuaValue)>)
    requires entries != [] && IsEnvOption(entries[0])
    ensures env + Pairs(entries[0].1.entries) + Variables(entries[1..]) == env + Variables(entries)
    ensures |Variables(entries)| == |entries[0].1.entries| + |Variables(entries[1..])|
  {
    PairsCount(entries[0].1.entries);
  }

  // ------------------------------------------------------------ the arguments

  /** Strings, and numbers as Lua shows them. */
  predicate IsText(v: LuaValue, text: string) {
    (v.Str? && text == v.text) || (v.Num? && text == v.shown)
  }

  /** Arguments are taken exactly when all are strings or numbers and they fit. */
  lemma {:induction false} ArgumentsIff(exec: seq<string>, args: seq<LuaValue>)
    requires |exec| <= 32
    ensures ArgumentsFrom(exec, args).Ok?
       <==> |exec| + |args| <= 32 && forall i :: 0 <= i < |args| ==> args[i].Str? || args[i].Num?
    ensures ArgumentsFrom(exec, args).Ok? ==>
              && |ArgumentsFrom(exec, args).value| == |exec| + |args|
              && ArgumentsFrom(exec, args).value[..|exec|] == exec
              && forall i :: 0 <= i < |args| ==> IsText(args[i], ArgumentsFrom(exec, args).value[|exec| + i])
    decreases |args|
  {
    if args != [] && |exec| < 32 && (args[0].Str? || args[0].Num?) {
      var exec' := exec + [TextOf(args[0]).value];
      ArgumentsIff(exec', args[1..]);
      if ArgumentsFrom(exec, args).Ok? {
        var r := ArgumentsFrom(exec, args).value;
        assert r[..|exec|] == r[..|exec'|][..|exec|];
        forall i | 0 <= i < |args|
          ensures IsText(args[i], r[|exec| + i])
        {
          if i > 0 {
            assert args[i] == args[1..][i - 1];
            assert IsText(args[1..][i - 1], r[|exec'| + (i - 1)]);
          } else {
            assert r[|exec|] == r[..|exec'|][|exec|];
          }
        }
      } else if |exec| + |args| <= 32 {
        assert exists i :: 0 <= i < |args[1..]| && !(args[1..][i].Str? || args[1..][i].Num?);
      }
    }
  }

  /** The program and its arguments: everything but a table at the end. */
  function ProgramArguments(args: seq<LuaValue>): seq<LuaValue> {
    if |args| > 1 && args[|args| - 1].Table? then args[..|args| - 1] else args
  }

  /** The table at the end. */
  function OptionsOf(args: seq<LuaValue>): seq<(LuaValue, LuaValue)> {
    if |args| > 1 && args[|args| - 1].Table? then args[|args| - 1].entries else []
  }

  /** Which calls build an action, and which one: at least a program, 32 strings or numbers at most,
      and valid options; the action runs these arguments with the variables and the last
      timeout of the options, so it can be run. */
  lemma NewExecIff(kind: ActionType, args: seq<LuaValue>)
    ensures NewExec(kind, args).Ok?
       <==> var program, options := ProgramArguments(args), OptionsOf(args);
            && args != [] && |program| <= 32 && (forall i :: 0 <= i < |program| ==> program[i].Str? || program[i].Num?)
            && ValidOptions(options) && |Variables(options)| <= 32
    ensures NewExec(kind, args).Ok? ==>
              var a, program := NewExec(kind, args).value, ProgramArguments(args);
              && Runnable(a) && a.kind == kind
              && |a.exec| == |program| && (forall i :: 0 <= i < |program| ==> IsText(program[i], a.exec[i]))
              && a.env == Variables(OptionsOf(args))
              && a.timeout == LastTimeout(OptionsOf(args), None)
  {
    var a, options := Action(kind, [], [], None), OptionsOf(args);
    OptionsIff(a, options);
    assert a.env + Variables(options) == Variables(options);
    LastTimeoutFits(options);
    ArgumentsIff([], ProgramArguments(args));
  }

  lemma {:induction false} LastTimeoutFits(entries: seq<(LuaValue, LuaValue)>)
    ensures LastTimeout(entries, None).Some? ==> 0.0 < LastTimeout(entries, None).value <= 3600.0
  {
    if entries != [] && !IsTimeoutOption(entries[|entries| - 1]) {
      LastTimeoutFits(entries[..|entries| - 1]);
    }
  }

  // ------------------------------------------------------------ why a call fails

  /** What is wrong with one entry of an `env` table, if `room` more variables fit. */
  predicate VariableFault(room: nat, entry: (LuaValue, LuaValue), e: LuaError) {
    match e
    case TOO_MANY_VARIABLES => room == 0
    case NAME_NOT_STRING => room > 0 && !entry.0.Str?
    case VALUE_NOT_STRING => room > 0 && entry.0.Str? && !entry.1.Str?
    case _ => false
  }

  /** The first bad variable decides the error. */
  lemma {:induction false} FirstBadVariable(env: seq<string>, entries: seq<(LuaValue, LuaValue)>, i: nat, e: LuaError)
    requires i < |entries| && AllStrings(entries[..i]) && |env| + i <= 32
    requires VariableFault(32 - |env| - i, entries[i], e)
    ensures EnvFrom(env, entries) == Error(e)
    decreases i
  {
    if i > 0 {
      assert entries[..i][0] == entries[0] && entries[1..][..i - 1] == entries[..i][1..];
      FirstBadVariable(env + [entries[0].0.text + "=" + entries[0].1.text], entries[1..], i - 1, e);
    }
  }

  /** What is wrong with one option, if `room` more variables fit. */
  ghost predicate OptionFault(room: nat, option: (LuaValue, LuaValue), e: LuaError) {
    var (key, value) := option;
    match e
    case KEY_NOT_STRING => !key.Str?
    case UNKNOWN_OPTION => key.Str? && key.text != "env" && key.text != "timeout"
    case ENV_NOT_TABLE => key.Str? && key.text == "env" && !value.Table?
    case TIMEOUT_NOT_NUMBER => key.Str? && key.text == "timeout" && !value.Num? && !(value.Str? && value.number.Some?)
    case BAD_TIMEOUT =>
      && key.Str? && key.text == "timeout" && !IsTimeoutOption(option)
      && (value.Num? || (value.Str? && value.number.Some?))
    case _ =>
      && key.Str? && key.text == "env" && value.Table?
      && exists i :: 0 <= i < |value.entries| && AllStrings(value.entries[..i]) && i <= room && VariableFault(room - i, value.entries[i], e)
  }

  /** The first bad argument decides the error. */
  lemma {:induction false} FirstBadArgument(exec: seq<string>, args: seq<LuaValue>, i: nat)
    requires i < |args| && |exec| + i <= 32 && forall j :: 0 <= j < i ==> args[j].Str? || args[j].Num?
    requires |exec| + i == 32 || !(args[i].Str? || args[i].Num?)
    ensures ArgumentsFrom(exec, args) == Error(if |exec| + i == 32 then TOO_MANY_ARGUMENTS else NOT_A_STRING)
    decreases i
  {
    if i > 0 {
      assert args[1..][i - 1] == args[i];
      FirstBadArgument(exec + [TextOf(args[0]).value], args[1..], i - 1);
    }
  }

  /** The first bad option decides the error. */
  lemma {:induction false} FirstBadOption(a: Action, entries: seq<(LuaValue, LuaValue)>, k: nat, e: LuaError)
    requires |a.env| <= 32 && k < |entries| && ValidOptions(entries[..k]) && |a.env| + |Variables(entries[..k])| <= 32
    requires OptionFault(32 - |a.env| - |Variables(entries[..k])|, entries[k], e)
    ensures OptionsFrom(a, entries) == Error(e)
    decreases k
  {
    var (key, value) := entries[0];
    if k == 0 {
      assert Variables(entries[..0]) == [];
      if key.Str? && key.text == "env" && value.Table? {
        var i :| 0 <= i < |value.entries| && AllStrings(value.entries[..i]) && |a.env| + i <= 32
                 && VariableFault(32 - |a.env| - i, value.entries[i], e);
        FirstBadVariable(a.env, value.entries, i, e);
      }
    } else {
      assert entries[..k][0] == entries[0] && entries[1..][..k - 1] == entries[..k][1..];
      ValidOptionsTail(entries[..k]);
      if IsEnvOption(entries[0]) {
        EnvIff(a.env, value.entries);
        PairsCount(value.entries);
        FirstBadOption(a.(env := a.env + Pairs(value.entries)), entries[1..], k - 1, e);
      } else {
        FirstBadOption(a.(timeout := Some(Seconds(entries[0]))), entries[1..], k - 1, e);
      }
    }
  }

  // ------------------------------------------------------------ as methods

  class ActionBuilder {
    var kind: ActionType
    var exec: seq<string>
    var env: seq<string>
    var timeout: Option<real>

    constructor (kind: ActionType)
      ensures Value() == Action(kind, [], [], None)
    {
      this.kind, exec, env, timeout := kind, [], [], None;
    }

    function Value(): Action
      reads this
    {
      Action(kind, exec, env, timeout)
    }

    method CollectExecEnv(entries: seq<(LuaValue, LuaValue)>) returns (error: Option<LuaError>)
      modifies this`env
      ensures match EnvFrom(old(env), entries)
              case Ok(r) => error == None && env == r
              case Error(e) => error == Some(e)
    {
      var i := 0;
      while i < |entries|
        invariant 0 <= i <= |entries|
        invariant EnvFrom(env, entries[i..]) == EnvFrom(old(env), entries)
      {
        if |env| >= MAX_ENV {
          return Some(TOO_MANY_VARIABLES);
        }
        if !entries[i].0.Str? {
          return Some(NAME_NOT_STRING);
        }
        if !entries[i].1.Str? {
          return Some(VALUE_NOT_STRING);
        }
        assert entries[i..][1..] == entries[i + 1..];
        env := env + [entries[i].0.text + "=" + entries[i].1.text];
        i := i + 1;
      }
      return None;
    }

    method CollectExecOptions(entries: seq<(LuaValue, LuaValue)>) returns (error: Option<LuaError>)
      modifies this`env, this`timeout
      ensures match OptionsFrom(old(Value()), entries)
              case Ok(r) => error == None && Value() == r
              case Error(e) => error == Some(e)
    {
      var i := 0;
      while i < |entries|
        invariant 0 <= i <= |entries|
        invariant OptionsFrom(Value(), entries[i..]) == OptionsFrom(old(Value()), entries)
      {
        var (key, value) := entries[i];
        assert entries[i..][0] == entries[i] && entries[i..][1..] == entries[i + 1..];
        if !key.Str? {
          return Some(KEY_NOT_STRING);
        }
        if key.text == "env" {
          if !value.Table? {
            return Some(ENV_NOT_TABLE);
          }
          error := CollectExecEnv(value.entries);
          if error.Some? {
            return;
          }
        } else if key.text == "timeout" {
          var number := NumberOf(value);
          if number.None? {
            return Some(TIMEOUT_NOT_NUMBER);
          }
          var seconds := number.value;
          if !seconds.normal || seconds.value <= 0.0 || seconds.value > 3600.0 {
            return Some(BAD_TIMEOUT);
          }
          timeout := Some(seconds.value);
        } else {
          return Some(UNKNOWN_OPTION);
        }
        i := i + 1;
      }
      return None;
    }

    method CollectExec(args: seq<LuaValue>) returns (error: Option<LuaError>)
      requires Value() == Action(kind, [], [], None) && args != []
      modifies this`exec, this`env, this`timeout
      ensures match NewExec(kind, args)
              case Ok(r) => error == None && Value() == r
              case Error(e) => error == Some(e)
    {
      var top := |args|;
      if top > 1 && args[top - 1].Table? {
        error := CollectExecOptions(args[top - 1].entries);
        if error.Some? {
          return;
        }
        top := top - 1;
      }
      assert args[..|args|] == args;
      error := CollectArguments(args[..top]);
    }

    /** The loop over the argument strings. */
    method CollectArguments(args: seq<LuaValue>) returns (error: Option<LuaError>)
      modifies this`exec
      ensures match ArgumentsFrom(old(exec), args)
              case Ok(r) => error == None && exec == r
              case Error(e) => error == Some(e)
    {
      var i := 0;
      while i < |args|
        invariant 0 <= i <= |args|
        invariant ArgumentsFrom(exec, args[i..]) == ArgumentsFrom(old(exec), args)
      {
        assert args[i..][1..] == args[i + 1..];
        if |exec| >= MAX_EXEC {
          return Some(TOO_MANY_ARGUMENTS);
        }
        var text := TextOf(args[i]);
        if text.None? {
          return Some(NOT_A_STRING);
        }
        exec := exec + [text.value];
        i := i + 1;
      }
      return None;
    }
  }

  /** `argv` and `env`: the strings, then a null, in an array with 33 slots. */
  method FillSlots(strings: seq<string>) returns (a: array<Option<string>>)
    requires |strings| <= 32
    ensures fresh(a) && a.Length == 33
    ensures forall i :: 0 <= i < |strings| ==> a[i] == Some(strings[i])
    ensures a[|strings|] == None
  {
    a := new Option<string>[MAX_EXEC + 1](_ => None);
    var n := 0;
    while n < |strings|
      invariant 0 <= n <= |strings|
      invariant forall i :: 0 <= i < n ==> a[i] == Some(strings[i])
    {
      a[n] := Some(strings[n]);
      n := n + 1;
    }
    a[n] := None;
  }
}

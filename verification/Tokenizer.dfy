/** The `command:p1,p2,...` messages of UDPServer.cpp. */
module Tokenizer {
  import opened MessageTable

  /** `string::find`: the first index from `from` on that holds `c`, the length when there is none. */
  function Find(s: string, c: char, from: nat): (i: nat)
    requires from <= |s|
    ensures from <= i <= |s|
    ensures forall k :: from <= k < i ==> s[k] != c
    ensures i < |s| ==> s[i] == c
    decreases |s| - from
  {
    if from == |s| || s[from] == c then from else Find(s, c, from + 1)
  }

  // ----- the declarative reading -----

  /** The fields of a list, as many as it has separators and one more. */
  function Split(s: string, c: char): (fields: seq<string>)
    ensures |fields| > 0
    decreases |s|
  {
    var i := Find(s, c, 0);
    if i == |s| then [s] else [s[..i]] + Split(s[i + 1..], c)
  }

  function Join(fields: seq<string>, c: char): string {
    if fields == [] then ""
    else if |fields| == 1 then fields[0]
    else fields[0] + [c] + Join(fields[1..], c)
  }

  predicate Without(fields: seq<string>, c: char) {
    forall f :: f in fields ==> c !in f
  }

  lemma FindIsUnique(s: string, c: char, from: nat, i: nat)
    requires from <= i <= |s| && c !in s[from..i] && (i < |s| ==> s[i] == c)
    ensures Find(s, c, from) == i
  {
    assert forall k :: from <= k < i ==> s[k] == s[from..i][k - from];
  }

  lemma {:induction false} JoinOfSplit(s: string, c: char)
    ensures Join(Split(s, c), c) == s && Without(Split(s, c), c)
    decreases |s|
  {
    var i := Find(s, c, 0);
    if i < |s| {
      JoinOfSplit(s[i + 1..], c);
      assert s == s[..i] + [c] + s[i + 1..];
    }
  }

  lemma {:induction false} SplitOfJoin(fields: seq<string>, c: char)
    requires fields != [] && Without(fields, c)
    ensures Split(Join(fields, c), c) == fields
  {
    var s, f := Join(fields, c), fields[0];
    assert f in fields;
    if |fields| == 1 {
      FindIsUnique(s, c, 0, |s|);
    } else {
      assert s[..|f|] == f && s[|f|] == c && s[|f| + 1..] == Join(fields[1..], c);
      FindIsUnique(s, c, 0, |f|);
      SplitOfJoin(fields[1..], c);
    }
  }

  /** The split of a text is the one way to write it as fields free of the separator. */
  lemma SplitIsTheOnlyOne(s: string, c: char, fields: seq<string>)
    requires fields != []
    ensures fields == Split(s, c) <==> Join(fields, c) == s && Without(fields, c)
  {
    JoinOfSplit(s, c);
    if Join(fields, c) == s && Without(fields, c) {
      SplitOfJoin(fields, c);
    }
  }

  /** The values of the fields that `stof` accepts, in order. */
  function Values<V>(fields: seq<string>, stof: string -> Option<V>): seq<V> {
    if fields == [] then []
    else Parsed(fields[0], stof) + Values(fields[1..], stof)
  }

  function Parsed<V>(field: string, stof: string -> Option<V>): seq<V> {
    match stof(field)
    case Some(v) => [v]
    case None => []
  }

  lemma {:induction false} AllValues<V>(fields: seq<string>, stof: string -> Option<V>, values: seq<V>)
    requires |values| == |fields| && forall i :: 0 <= i < |fields| ==> stof(fields[i]) == Some(values[i])
    ensures Values(fields, stof) == values
  {
    if fields != [] {
      AllValues(fields[1..], stof, values[1..]);
    }
  }

  /** The event a message raises. */
  datatype Invocation<V> = InfoRequest | SetBrightness | CommandReceived(command: string, params: seq<V>)

  function Named<V>(command: string, params: seq<V>): Invocation<V> {
    if command == "info" then InfoRequest
    else if command == "set_brightness" then SetBrightness
    else CommandReceived(command, params)
  }

  /** What a message asks for: nothing when it has no ':'. */
  function Dispatch<V>(message: string, stof: string -> Option<V>): Option<Invocation<V>> {
    var pos := Find(message, ':', 0);
    if pos == |message| then None
    else Some(Named(message[..pos], Values(Split(message[pos + 1..], ','), stof)))
  }

  /**
   * A well-formed request is read as it was written. The parameters may hold ':',
   * and "info" and "set_brightness" drop theirs.
   */
  lemma RequestIsUnderstood<V>(command: string, fields: seq<string>, values: seq<V>, stof: string -> Option<V>)
    requires ':' !in command && Without(fields, ',') && stof("") == None
    requires |values| == |fields| && forall i :: 0 <= i < |fields| ==> stof(fields[i]) == Some(values[i])
    ensures Dispatch(command + ":" + Join(fields, ','), stof) == Some(Named(command, values))
  {
    var message := command + ":" + Join(fields, ',');
    assert message[..|command|] == command && message[|command| + 1..] == Join(fields, ',');
    FindIsUnique(message, ':', 0, |command|);
    if fields == [] {
      assert Split("", ',') == [""] && Values([""], stof) == [];
    } else {
      SplitOfJoin(fields, ',');
    }
    AllValues(fields, stof, values);
  }

  // A text that begins with a command and a colon is cut there.
  lemma CutAtColon(command: string, rest: string)
    requires ':' !in command
    ensures var message := command + ":" + rest;
      && Find(message, ':', 0) == |command| && message[..|command|] == command && message[|command| + 1..] == rest
  {
    FindIsUnique(command + ":" + rest, ':', 0, |command|);
  }

  /** Which event a request raises, whatever its parameters: "info" asks for information, "set_brightness" sets the
      brightness, and any other command is passed on with the values of its fields. */
  lemma EventOfCommand<V>(command: string, rest: string, stof: string -> Option<V>)
    requires ':' !in command
    ensures command == "info" ==> Dispatch(command + ":" + rest, stof) == Some(InfoRequest)
    ensures command == "set_brightness" ==> Dispatch(command + ":" + rest, stof) == Some(SetBrightness)
    ensures command != "info" && command != "set_brightness" ==>
      Dispatch(command + ":" + rest, stof) == Some(CommandReceived(command, Values(Split(rest, ','), stof)))
  {
    CutAtColon(command, rest);
  }

  lemma InfoIsAnswered<V>(rest: string, stof: string -> Option<V>)
    ensures Dispatch("info:" + rest, stof) == Some(InfoRequest)
    ensures Dispatch("set_brightness:" + rest, stof) == Some(SetBrightness)
  {
    EventOfCommand("info", rest, stof);
    EventOfCommand("set_brightness", rest, stof);
    assert "info" + ":" + rest == "info:" + rest;
    assert "set_brightness" + ":" + rest == "set_brightness:" + rest;
  }

  /** A command of neither name arrives as it was written, with exactly its values. */
  lemma CommandArrives<V>(command: string, fields: seq<string>, values: seq<V>, stof: string -> Option<V>)
    requires ':' !in command && command != "info" && command != "set_brightness"
    requires Without(fields, ',') && stof("") == None
    requires |values| == |fields| && forall i :: 0 <= i < |fields| ==> stof(fields[i]) == Some(values[i])
    ensures Dispatch(command + ":" + Join(fields, ','), stof) == Some(CommandReceived(command, values))
  {
    hide Dispatch, Join;
    RequestIsUnderstood(command, fields, values, stof);
  }

  /** A field that does not parse is skipped, and the others keep their order. */
  lemma UnparsableFieldIsSkipped<V>(before: seq<string>, field: string, after: seq<string>, stof: string -> Option<V>)
    requires stof(field) == None
    ensures Values(before + [field] + after, stof) == Values(before, stof) + Values(after, stof)
  {
    hide Values;
    ValuesAppend(before + [field], after, stof);
    ValuesAppend(before, [field], stof);
    NoValue(field, stof);
  }

  lemma NoValue<V>(field: string, stof: string -> Option<V>)
    requires stof(field) == None
    ensures Values([field], stof) == []
  {
    assert [field][1..] == [] && Parsed(field, stof) == [];
  }

  /** Only a message without ':' is invalid. */
  lemma RefusedExactly<V>(message: string, stof: string -> Option<V>)
    ensures Dispatch(message, stof) == None <==> ':' !in message
  {
  }

  lemma {:induction false} ValuesAppend<V>(before: seq<string>, after: seq<string>, stof: string -> Option<V>)
    ensures Values(before + after, stof) == Values(before, stof) + Values(after, stof)
  {
    hide Parsed;
    if before == [] {
      assert before + after == after;
    } else {
      assert (before + after)[0] == before[0] && (before + after)[1..] == before[1..] + after;
      ValuesAppend(before[1..], after, stof);
    }
  }

  // ----- the loop -----

  /** The parameter loop: cuts at every comma and skips what `stof` throws on. */
  method ParseParameters<V>(params_str: string, stof: string -> Option<V>) returns (params: seq<V>)
    requires stof("") == None
    ensures params == Values(Split(params_str, ','), stof)
  {
    hide Split, Values;
    params := [];
    var start := 0;
    assert params_str[start..] == params_str;
    var end := Find(params_str, ',', start);
    while end != |params_str|
      invariant start <= end <= |params_str| && end == Find(params_str, ',', start)
      invariant Values(Split(params_str, ','), stof) == params + Values(Split(params_str[start..], ','), stof)
      decreases |params_str| - start
    {
      NextField(params_str, start, end, stof);
      match stof(params_str[start..end]) {
        case Some(v) => params := params + [v];
        case None =>
      }
      start := end + 1;
      end := Find(params_str, ',', start);
    }
    LastField(params_str, start, stof);
    assert start == |params_str| ==> params_str[start..] == "";
    if start < |params_str| {
      match stof(params_str[start..]) {
        case Some(v) => params := params + [v];
        case None =>
      }
    }
  }

  lemma FindInSuffix(s: string, c: char, from: nat)
    requires from <= |s|
    ensures Find(s[from..], c, 0) == Find(s, c, from) - from
  {
    var i := Find(s, c, from);
    FindIsUnique(s[from..], c, 0, i - from);
  }

  lemma SplitStep<V>(s: string, end: nat, stof: string -> Option<V>)
    requires end == Find(s, ',', 0) < |s|
    ensures Values(Split(s, ','), stof) == Parsed(s[..end], stof) + Values(Split(s[end + 1..], ','), stof)
  {
    var fields := Split(s, ',');
    assert fields[0] == s[..end] && fields[1..] == Split(s[end + 1..], ',');
  }

  lemma NextField<V>(s: string, start: nat, end: nat, stof: string -> Option<V>)
    requires start <= |s| && end == Find(s, ',', start) < |s|
    ensures Values(Split(s[start..], ','), stof) == Parsed(s[start..end], stof) + Values(Split(s[end + 1..], ','), stof)
  {
    hide Split, Values, Parsed;
    var t := s[start..];
    FindInSuffix(s, ',', start);
    SplitStep(t, end - start, stof);
    assert t[..end - start] == s[start..end] && t[end - start + 1..] == s[end + 1..];
  }

  lemma LastField<V>(s: string, start: nat, stof: string -> Option<V>)
    requires start <= |s| && Find(s, ',', start) == |s|
    ensures Values(Split(s[start..], ','), stof) == Parsed(s[start..], stof)
  {
    FindInSuffix(s, ',', start);
    assert Values([s[start..]], stof) == Parsed(s[start..], stof);
  }

  /** What `processCommands` does with a message it has taken from the queue. */
  method Handle<V>(message: string, stof: string -> Option<V>) returns (invoked: Option<Invocation<V>>)
    requires stof("") == None
    ensures invoked == Dispatch(message, stof)
  {
    var pos := Find(message, ':', 0);
    if pos != |message| {
      var command := message[..pos];
      var params_str := message[pos + 1..];
      var params := ParseParameters(params_str, stof);
      if command == "info" {
        invoked := Some(InfoRequest);
      } else if command == "set_brightness" {
        invoked := Some(SetBrightness);
      } else {
        invoked := Some(CommandReceived(command, params));
      }
    } else {
      invoked := None;
    }
  }
}

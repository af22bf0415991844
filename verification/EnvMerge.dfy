/**
 The merge of a project env file into the environment: the first value of a key wins, a key that is
 already set is left alone, and the two keys that authorise a run are never taken from the file.
 A variable that is undefined is absent from the environment map.
 */
module EnvMerge {
  import opened Wrappers

  type Env = map<string, string>

  const INVOCATION_ONLY_KEYS := {"SLIDE_ROTATE_LOST_ENCRYPTION_KEY", "ENCRYPTION_KEY"}

  /** `split(/\r?\n/)`; `current` is the line read so far. */
  function Split(text: string, current: string): seq<string> {
    if text == [] then [current]
    else if text[0] == '\n' then [current] + Split(text[1..], [])
    else if |text| > 1 && text[0] == '\r' && text[1] == '\n' then [current] + Split(text[2..], [])
    else Split(text[1..], current + [text[0]])
  }

  predicate IsKeyChar(c: char) {
    'A' <= c <= 'Z' || '0' <= c <= '9' || c == '_'
  }

  /** The characters a dot does not match. */
  predicate IsLineEnd(c: char) {
    c == '\n' || c == '\r' || c == '\U{2028}' || c == '\U{2029}'
  }

  function KeyLength(line: string): (n: nat)
    ensures n <= |line|
  {
    if line == [] || !IsKeyChar(line[0]) then 0 else 1 + KeyLength(line[1..])
  }

  /** `match(/^([A-Z0-9_]+)=(.*)$/)`: the key and the value. */
  function Match(line: string): Option<(string, string)> {
    var k := KeyLength(line);
    if k == 0 || k == |line| || line[k] != '=' then None
    else if exists i :: k < i < |line| && IsLineEnd(line[i]) then None
    else Some((line[..k], line[k + 1..]))
  }

  /** The form of an assignment: a key, the first equals sign, and everything behind it as the value. */
  predicate Gives(line: string, key: string, value: string) {
    && line == key + "=" + value && key != []
    && (forall i :: 0 <= i < |key| ==> 'A' <= key[i] <= 'Z' || '0' <= key[i] <= '9' || key[i] == '_')
    && (forall i :: 0 <= i < |value| ==> value[i] !in ['\n', '\r', '\U{2028}', '\U{2029}'])
  }

  lemma {:induction false} KeyLengthIs(key: string, rest: string)
    requires forall i :: 0 <= i < |key| ==> IsKeyChar(key[i])
    requires rest != [] ==> !IsKeyChar(rest[0])
    ensures KeyLength(key + rest) == |key|
  {
    if key == [] {
      assert key + rest == rest;
    } else {
      assert (key + rest)[0] == key[0] && (key + rest)[1..] == key[1..] + rest;
      KeyLengthIs(key[1..], rest);
    }
  }

  lemma {:induction false} KeyCharsBefore(line: string)
    ensures forall i :: 0 <= i < KeyLength(line) ==> IsKeyChar(line[i])
  {
    if line != [] && IsKeyChar(line[0]) {
      KeyCharsBefore(line[1..]);
      forall i | 0 <= i < KeyLength(line)
        ensures IsKeyChar(line[i])
      {
        if i > 0 {
          assert line[i] == line[1..][i - 1];
        }
      }
    }
  }

  /** A line matches with a key and a value exactly when it has that form with them. */
  lemma MatchIff(line: string, key: string, value: string)
    ensures Match(line) == Some((key, value)) <==> Gives(line, key, value)
  {
    KeyCharsBefore(line);
    var k := KeyLength(line);
    if Gives(line, key, value) {
      assert line == key + ("=" + value);
      KeyLengthIs(key, "=" + value);
      assert k == |key| && line[k] == '=' && line[..k] == key && line[k + 1..] == value;
      assert forall i :: k < i < |line| ==> line[i] == value[i - k - 1];
    }
    if Match(line) == Some((key, value)) {
      assert line == line[..k] + [line[k]] + line[k + 1..];
      assert forall i :: 0 <= i < |value| ==> value[i] == line[k + 1 + i];
    }
  }

  /** The line gives the key a value. */
  predicate Defines(line: string, key: string) {
    Match(line).Some? && Match(line).value.0 == key
  }

  /** The value of the first line that defines the key. */
  function FirstValue(lines: seq<string>, key: string): Option<string> {
    if lines == [] then None
    else if Defines(lines[0], key) then Some(Match(lines[0]).value.1)
    else FirstValue(lines[1..], key)
  }

  predicate Eligible(key: string, current: Env) {
    key !in INVOCATION_ONLY_KEYS && key !in current
  }

  /** The reference: every eligible key that some line defines, with its first value. */
  ghost predicate IsMerge(lines: seq<string>, current: Env, merged: Env) {
    forall key ::
      if Eligible(key, current) && FirstValue(lines, key).Some?
      then key in merged && merged[key] == FirstValue(lines, key).value
      else key !in merged
  }

  lemma {:induction false} FirstValueSnoc(lines: seq<string>, line: string, key: string)
    ensures FirstValue(lines + [line], key) ==
            if FirstValue(lines, key).Some? then FirstValue(lines, key)
            else if Defines(line, key) then Some(Match(line).value.1) else None
  {
    if lines == [] {
      assert [] + [line] == [line];
    } else {
      assert (lines + [line])[1..] == lines[1..] + [line];
      FirstValueSnoc(lines[1..], line, key);
    }
  }

  lemma SnocMerges(lines: seq<string>, line: string, current: Env, before: Env, after: Env)
    requires IsMerge(lines, current, before)
    requires var m := Match(line);
             after == if m.Some? && Eligible(m.value.0, current) && m.value.0 !in before
                      then before[m.value.0 := m.value.1] else before
    ensures IsMerge(lines + [line], current, after)
  {
    forall key
      ensures if Eligible(key, current) && FirstValue(lines + [line], key).Some?
              then key in after && after[key] == FirstValue(lines + [line], key).value
              else key !in after
    {
      FirstValueSnoc(lines, line, key);
    }
  }

  /** The value of the first line that gives one. */
  ghost predicate FirstGives(lines: seq<string>, key: string, value: string) {
    exists i :: 0 <= i < |lines| && Gives(lines[i], key, value) && forall j, v :: 0 <= j < i ==> !Gives(lines[j], key, v)
  }

  lemma DefinesIff(line: string, key: string)
    ensures Defines(line, key) <==> exists v :: Gives(line, key, v)
    ensures forall v :: Gives(line, key, v) ==> Match(line).value.1 == v
  {
    forall v
      ensures Match(line) == Some((key, v)) <==> Gives(line, key, v)
    {
      MatchIff(line, key, v);
    }
    hide Gives, Match;
    if Defines(line, key) {
      assert Match(line) == Some((key, Match(line).value.1));
    }
  }

  lemma {:induction false} FirstValueIff(lines: seq<string>, key: string, value: string)
    ensures FirstValue(lines, key) == Some(value) <==> FirstGives(lines, key, value)
  {
    if lines != [] {
      DefinesIff(lines[0], key);
      FirstValueIff(lines[1..], key, value);
      hide Gives, Match, Defines, FirstValue;
      FirstGivesCons(lines, key, value);
      FirstValueCons(lines, key);
    }
  }

  lemma FirstValueCons(lines: seq<string>, key: string)
    requires lines != []
    ensures FirstValue(lines, key) ==
            if Defines(lines[0], key) then Some(Match(lines[0]).value.1) else FirstValue(lines[1..], key)
  {
  }

  lemma FirstGivesCons(lines: seq<string>, key: string, value: string)
    requires lines != []
    ensures FirstGives(lines, key, value) <==>
              Gives(lines[0], key, value) || ((forall v :: !Gives(lines[0], key, v)) && FirstGives(lines[1..], key, value))
  {
    hide Gives;
    if Gives(lines[0], key, value) {
      assert FirstGives(lines, key, value);
    } else {
      if FirstGives(lines, key, value) {
        var i :| 0 <= i < |lines| && Gives(lines[i], key, value) && forall j, v :: 0 <= j < i ==> !Gives(lines[j], key, v);
        assert lines[1..][i - 1] == lines[i];
        assert forall j :: 0 <= j < i - 1 ==> lines[1..][j] == lines[j + 1];
      }
      if (forall v :: !Gives(lines[0], key, v)) && FirstGives(lines[1..], key, value) {
        var i :| 0 <= i < |lines[1..]| && Gives(lines[1..][i], key, value) &&
          forall j, v :: 0 <= j < i ==> !Gives(lines[1..][j], key, v);
        assert lines[i + 1] == lines[1..][i];
        assert forall j :: 1 <= j < i + 1 ==> lines[j] == lines[1..][j - 1];
      }
    }
  }

  /** The result in the form of the lines: first values of keys that are neither set nor authorising. */
  ghost predicate TakesFirst(lines: seq<string>, current: Env, merged: Env) {
    forall key, value ::
      key in merged && merged[key] == value <==>
        && FirstGives(lines, key, value) && key !in current
        && key != "SLIDE_ROTATE_LOST_ENCRYPTION_KEY" && key != "ENCRYPTION_KEY"
  }

  lemma MergeTakesFirst(lines: seq<string>, current: Env, merged: Env)
    requires IsMerge(lines, current, merged)
    ensures TakesFirst(lines, current, merged)
  {
    forall key, value
      ensures key in merged && merged[key] == value <==>
                && FirstGives(lines, key, value) && key !in current
                && key != "SLIDE_ROTATE_LOST_ENCRYPTION_KEY" && key != "ENCRYPTION_KEY"
    {
      FirstValueIff(lines, key, value);
      assert key in INVOCATION_ONLY_KEYS <==> key == "SLIDE_ROTATE_LOST_ENCRYPTION_KEY" || key == "ENCRYPTION_KEY";
      hide FirstGives, FirstValue;
      assert key in merged <==> Eligible(key, current) && FirstValue(lines, key).Some?;
    }
  }

  /** A text without a line end is one line; `SplitJoins` says what happens at each end. */
  lemma {:induction false} SplitWhole(text: string, current: string)
    requires forall i :: 0 <= i < |text| ==> text[i] != '\n'
    ensures Split(text, current) == [current + text]
  {
    if text == [] {
      assert current + text == current;
    } else {
      SplitWhole(text[1..], current + [text[0]]);
      assert current + [text[0]] + text[1..] == current + text;
    }
  }

  /** `projectEnvAssignments`: the loop over the lines of the file. */
  method ProjectEnvAssignments(text: string, current: Env) returns (merged: Env)
    ensures IsMerge(Split(text, []), current, merged)
    ensures TakesFirst(Split(text, []), current, merged)
  {
    merged := map[];
    var lines := Split(text, []);
    for i := 0 to |lines|
      invariant IsMerge(lines[..i], current, merged)
    {
      var line := lines[i];
      ghost var before := merged;
      var matched := Match(line);
      if matched.Some? {
        var key := matched.value.0;
        if !(key in INVOCATION_ONLY_KEYS || key in current || key in merged) {
          merged := merged[key := matched.value.1];
        }
      }
      SnocMerges(lines[..i], line, current, before, merged);
      assert lines[..i + 1] == lines[..i] + [line];
    }
    assert lines[..|lines|] == lines;
    MergeTakesFirst(lines, current, merged);
  }

  lemma MergeUnique(lines: seq<string>, current: Env, a: Env, b: Env)
    requires IsMerge(lines, current, a) && IsMerge(lines, current, b)
    ensures a == b
  {
    forall key
      ensures key in a <==> key in b
      ensures key in a ==> a[key] == b[key]
    {
      assert if Eligible(key, current) && FirstValue(lines, key).Some?
        then key in a && a[key] == FirstValue(lines, key).value
        else key !in a;
    }
  }

  lemma {:induction false} FirstValueConcat(a: seq<string>, b: seq<string>, key: string)
    ensures FirstValue(a + b, key) == if FirstValue(a, key).Some? then FirstValue(a, key) else FirstValue(b, key)
  {
    if a == [] {
      assert [] + b == b;
    } else {
      assert (a + b)[1..] == a[1..] + b;
      FirstValueConcat(a[1..], b, key);
    }
  }

  /** A line end in a text: a carriage return in front of a newline is always taken into it. */
  predicate IsLineBreak(before: string, end: string) {
    end == "\r\n" || (end == "\n" && (before == [] || before[|before| - 1] != '\r'))
  }

  /** A text is split at each of its line ends. */
  lemma {:induction false} SplitJoins(a: string, end: string, b: string, current: string)
    requires IsLineBreak(a, end)
    ensures Split(a + end + b, current) == Split(a, current) + Split(b, [])
    decreases |a|
  {
    var whole := a + end + b;
    if a == [] {
      assert whole == end + b && whole[|end|..] == b;
    } else if a[0] == '\n' {
      assert whole[1..] == a[1..] + end + b;
      SplitJoins(a[1..], end, b, []);
      Regroup([current], Split(a[1..], []), Split(b, []));
    } else if |a| > 1 && a[0] == '\r' && a[1] == '\n' {
      assert whole[2..] == a[2..] + end + b;
      SplitJoins(a[2..], end, b, []);
      Regroup([current], Split(a[2..], []), Split(b, []));
    } else {
      assert whole[1..] == a[1..] + end + b;
      SplitJoins(a[1..], end, b, current + [a[0]]);
    }
  }

  lemma Regroup(a: seq<string>, b: seq<string>, c: seq<string>)
    ensures a + b + c == a + (b + c)
  {
  }

  /** Merging two lists of lines in one go is merging the first, taking that over, and merging the second. */
  lemma LinesCompose(a: seq<string>, b: seq<string>, current: Env, first: Env, second: Env)
    requires IsMerge(a, current, first) && IsMerge(b, current + first, second)
    ensures IsMerge(a + b, current, first + second)
    ensures first.Keys !! second.Keys
  {
    forall key
      ensures var value := FirstValue(a + b, key);
              if Eligible(key, current) && value.Some?
              then key in first + second && (first + second)[key] == value.value
              else key !in first + second
      ensures !(key in first && key in second)
    {
      FirstValueConcat(a, b, key);
      assert key in first <==> Eligible(key, current) && FirstValue(a, key).Some?;
      assert key in second <==> Eligible(key, current + first) && FirstValue(b, key).Some?;
    }
  }

  /** The same for a file cut at any of its line ends. */
  lemma MergeComposes(a: string, end: string, b: string, current: Env, first: Env, second: Env)
    requires IsLineBreak(a, end)
    requires IsMerge(Split(a, []), current, first)
    requires IsMerge(Split(b, []), current + first, second)
    ensures IsMerge(Split(a + end + b, []), current, first + second)
    ensures first.Keys !! second.Keys
  {
    SplitJoins(a, end, b, []);
    LinesCompose(Split(a, []), Split(b, []), current, first, second);
  }

  /** Reading the same file again adds nothing, and the authorising keys never come from it. */
  lemma SecondPassIsEmpty(text: string, current: Env, first: Env, second: Env)
    requires IsMerge(Split(text, []), current, first)
    requires IsMerge(Split(text, []), current + first, second)
    ensures second == map[]
    ensures first.Keys !! INVOCATION_ONLY_KEYS && first.Keys !! current.Keys
  {
    forall key
      ensures key !in second
      ensures key in first ==> key !in INVOCATION_ONLY_KEYS && key !in current
    {
      assert key in first <==> Eligible(key, current) && FirstValue(Split(text, []), key).Some?;
      assert key in second <==> Eligible(key, current + first) && FirstValue(Split(text, []), key).Some?;
    }
  }
}

/**
 * loadEnv, the `.env` reader that both the current RLWorld and the older RLGameManager
 * hold: trimmed lines, blank lines and `#` comments skipped, `key=value` split at the
 * first `=`, both halves trimmed, a later key overriding an earlier one.
 */
module Env {
  import opened Wrappers
  import opened Text

  /** The key and value one line defines, if any. */
  function ParseLine(line: string): (r: Option<(string, string)>)
  {
    var t := JavaTrim(line);
    if t == [] || t[0] == '#' then None
    else
      var eq := IndexOf(t, '=');
      if eq == -1 then None else Some((JavaTrim(t[..eq]), JavaTrim(t[eq + 1..])))
  }

  /** What each line defines, in order. */
  function Parsed(lines: seq<string>): (r: seq<Option<(string, string)>>)
    ensures |r| == |lines|
    ensures forall i :: 0 <= i < |lines| ==> r[i] == ParseLine(lines[i])
  {
    seq(|lines|, i requires 0 <= i < |lines| => ParseLine(lines[i]))
  }

  /** The map after putting the defined pairs in order. */
  function Fold(entries: seq<Option<(string, string)>>): map<string, string>
  {
    if entries == [] then map[]
    else
      var env := Fold(entries[..|entries| - 1]);
      match entries[|entries| - 1]
      case None => env
      case Some(kv) => env[kv.0 := kv.1]
  }

  /** The map loadEnv returns for a file of `lines`. */
  function Load(lines: seq<string>): map<string, string>
  {
    Fold(Parsed(lines))
  }

  /** Whether entry `i` defines `key`. */
  predicate Defines(entries: seq<Option<(string, string)>>, i: int, key: string)
    requires 0 <= i < |entries|
  {
    entries[i].Some? && entries[i].value.0 == key
  }

  /** The reading loop, line by line, as the source does it. */
  method LoadEnv(lines: seq<string>) returns (env: map<string, string>)
    ensures env == Load(lines)
  {
    ghost var parsed := Parsed(lines);
    env := map[];
    var i := 0;
    while i < |lines|
      invariant 0 <= i <= |lines|
      invariant env == Fold(parsed[..i])
    {
      ghost var entry := ParseLine(lines[i]);
      FoldNext(parsed, i);
      var line := JavaTrim(lines[i]);
      if line == [] || line[0] == '#' {
        assert entry.None?;
        i := i + 1;
        continue;
      }
      var eq := IndexOf(line, '=');
      if eq != -1 {
        assert entry == Some((JavaTrim(line[..eq]), JavaTrim(line[eq + 1..])));
        env := env[JavaTrim(line[..eq]) := JavaTrim(line[eq + 1..])];
      } else {
        assert entry.None?;
      }
      i := i + 1;
    }
    assert parsed[..i] == parsed;
  }

  /** Folding one more entry: a defined pair is put, an undefined line changes nothing. */
  lemma FoldNext(entries: seq<Option<(string, string)>>, i: nat)
    requires i < |entries|
    ensures Fold(entries[..i + 1]) ==
      if entries[i].None? then Fold(entries[..i]) else Fold(entries[..i])[entries[i].value.0 := entries[i].value.1]
  {
    assert entries[..i + 1][..i] == entries[..i];
  }

  /**
   * A line defines a key exactly when, once trimmed, it is neither blank nor a comment and
   * holds an `=`; the key is what precedes the first `=`, so it holds none itself, and both
   * halves come out trimmed.
   */
  lemma ParseLineShape(line: string)
    ensures var t := JavaTrim(line);
      ParseLine(line).Some? <==> t != [] && t[0] != '#' && '=' in t
    ensures ParseLine(line).Some? ==>
      var kv := ParseLine(line).value;
      '=' !in kv.0 && kv.0 == JavaTrim(kv.0) && kv.1 == JavaTrim(kv.1)
  {
    var t := JavaTrim(line);
    if ParseLine(line).Some? {
      var eq := IndexOf(t, '=');
      var kv := ParseLine(line).value;
      JavaTrimIdempotent(t[..eq]);
      JavaTrimIdempotent(t[eq + 1..]);
      TrimKeepsOut(t[..eq], '=');
    }
  }

  /** Trimming never introduces a character. */
  lemma TrimKeepsOut(s: string, c: char)
    requires c !in s
    ensures c !in JavaTrim(s)
  {
    var i, j := JavaTrimIsSlice(s);
    assert forall k :: 0 <= k < j - i ==> s[i..j][k] == s[i + k];
  }

  /** The keys of the map are exactly the keys some line defines. */
  lemma {:induction false} FoldKeys(lines: seq<Option<(string, string)>>, key: string)
    ensures key in Fold(lines) <==> exists i :: 0 <= i < |lines| && Defines(lines, i, key)
  {
    if lines != [] {
      var init, last := lines[..|lines| - 1], lines[|lines| - 1];
      assert Fold(lines) == if last.None? then Fold(init) else Fold(init)[last.value.0 := last.value.1];
      FoldKeys(init, key);
      if key in Fold(init) {
        var i :| 0 <= i < |init| && Defines(init, i, key);
        assert Defines(lines, i, key);
      } else if key in Fold(lines) {
        assert Defines(lines, |lines| - 1, key);
      }
      if exists i :: 0 <= i < |lines| && Defines(lines, i, key) {
        var i :| 0 <= i < |lines| && Defines(lines, i, key);
        if i < |init| {
          assert Defines(init, i, key);
        } else {
          assert last.Some? && last.value.0 == key;
        }
      }
    }
  }

  /** A key takes the value of the last line that defines it. */
  lemma {:induction false} LastDefinitionWins(lines: seq<Option<(string, string)>>, i: int, key: string, value: string)
    requires 0 <= i < |lines| && lines[i] == Some((key, value))
    requires forall j :: i < j < |lines| ==> !Defines(lines, j, key)
    ensures key in Fold(lines) && Fold(lines)[key] == value
  {
    var init := lines[..|lines| - 1];
    if i < |lines| - 1 {
      forall j | i < j < |init|
        ensures !Defines(init, j, key)
      {
        assert init[j] == lines[j];
        assert !Defines(lines, j, key);
      }
      LastDefinitionWins(init, i, key, value);
      assert !Defines(lines, |lines| - 1, key);
    }
  }

  /** Environment.getOrDefault on the loaded map. */
  function GetOrDefault(env: map<string, string>, key: string, default: string): (r: string)
    ensures key in env ==> r == env[key]
    ensures key !in env ==> r == default
  {
    if key in env then env[key] else default
  }
}

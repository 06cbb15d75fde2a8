/**
 * Extraction of the persistence-unit properties from a configuration
 * (`getProperties`): every key under `blueprints.jpagraph.persistence-unit-properties`
 * loses that prefix and the separator after it, every `..` in what is left
 * becomes `.` (Java's `replaceAll("\\.\\.", ".")`), and the result is put into
 * a map, a later key overwriting an earlier one that rewrites the same way.
 */
module UnitProperties {
  import opened Wrappers
  import opened Config

  const Prefix: string := "blueprints.jpagraph.persistence-unit-properties"

  /** Whether `s` contains `..`. */
  predicate HasDoubleDot(s: string)
  {
    exists i :: 0 <= i < |s| - 1 && s[i] == '.' && s[i + 1] == '.'
  }

  /**
   * `s.replaceAll("\\.\\.", ".")`: matches are taken left to right and do not
   * overlap, so `...` becomes `..`.
   */
  function CollapseDots(s: string): (r: string)
    ensures |r| <= |s|
  {
    if |s| < 2 then s
    else if s[0] == '.' && s[1] == '.' then "." + CollapseDots(s[2..])
    else [s[0]] + CollapseDots(s[1..])
  }

  /** The escaping that `CollapseDots` undoes: every `.` written twice. */
  function EscapeDots(s: string): (r: string)
  {
    if s == [] then []
    else (if s[0] == '.' then ".." else [s[0]]) + EscapeDots(s[1..])
  }

  /** The characters of `s` other than `.`, in order. */
  function WithoutDots(s: string): string
  {
    if s == [] then []
    else (if s[0] == '.' then [] else [s[0]]) + WithoutDots(s[1..])
  }

  lemma HasDoubleDotTail(s: string)
    requires |s| >= 2 && !(s[0] == '.' && s[1] == '.')
    ensures HasDoubleDot(s) <==> HasDoubleDot(s[1..])
  {
  }

  /** A string without `..` is left as it is; one with `..` gets strictly shorter. */
  lemma {:induction false} CollapseDotsChangesExactlyDoubleDots(s: string)
    ensures !HasDoubleDot(s) ==> CollapseDots(s) == s
    ensures HasDoubleDot(s) ==> |CollapseDots(s)| < |s|
  {
    if |s| < 2 {
    } else if s[0] == '.' && s[1] == '.' {
      assert HasDoubleDot(s);
    } else {
      HasDoubleDotTail(s);
      CollapseDotsChangesExactlyDoubleDots(s[1..]);
      assert s == [s[0]] + s[1..];
    }
  }

  lemma WithoutDotsCons(c: char, t: string)
    ensures WithoutDots([c] + t) == (if c == '.' then [] else [c]) + WithoutDots(t)
  {
  }

  /** Collapsing removes only dots: every other character survives, in order. */
  lemma {:induction false} CollapseDotsKeepsOtherChars(s: string)
    ensures WithoutDots(CollapseDots(s)) == WithoutDots(s)
  {
    if |s| >= 2 {
      if s[0] == '.' && s[1] == '.' {
        CollapseDotsKeepsOtherChars(s[2..]);
        WithoutDotsCons('.', CollapseDots(s[2..]));
        assert s[1..][1..] == s[2..];
      } else {
        CollapseDotsKeepsOtherChars(s[1..]);
        WithoutDotsCons(s[0], CollapseDots(s[1..]));
      }
    }
  }

  /** Collapsing undoes escaping, for every string. */
  lemma {:induction false} CollapseDotsUndoesEscape(s: string)
    ensures CollapseDots(EscapeDots(s)) == s
  {
    if s != [] {
      var e := EscapeDots(s);
      CollapseDotsUndoesEscape(s[1..]);
      if s[0] == '.' {
        assert e[2..] == EscapeDots(s[1..]);
      } else if |e| >= 2 {
        assert e[1..] == EscapeDots(s[1..]);
      } else {
        assert e == [s[0]];
        assert s == [s[0]];
      }
    }
  }

  /** A key that `getProperties` can rewrite: the prefix and at least one character more. */
  predicate IsPropertyKey(key: string)
  {
    Prefix <= key && |key| > |Prefix|
  }

  /**
   * The rewrite `getProperties` applies to each key: drop the prefix and the separator after it (any
   * character: it is not checked), then collapse `..` to `.`.
   */
  function RewriteKey(key: string): (r: string)
    requires IsPropertyKey(key)
    ensures |r| <= |key| - |Prefix| - 1
  {
    CollapseDots(key[|Prefix| + 1..])
  }

  /** The full configuration key under which a property named `name` is written. */
  function PropertyKey(name: string): (key: string)
  {
    Prefix + "." + EscapeDots(name)
  }

  /** Every property name comes back out of its configuration key. */
  lemma PropertyKeyRoundTrip(name: string)
    ensures IsPropertyKey(PropertyKey(name))
    ensures RewriteKey(PropertyKey(name)) == name
  {
    assert PropertyKey(name)[|Prefix| + 1..] == EscapeDots(name);
    CollapseDotsUndoesEscape(name);
  }

  /** A remainder without `..` is used unchanged; one with `..` gets shorter. */
  lemma RewriteKeyPlain(key: string)
    requires IsPropertyKey(key)
    ensures !HasDoubleDot(key[|Prefix| + 1..]) ==> RewriteKey(key) == key[|Prefix| + 1..]
    ensures HasDoubleDot(key[|Prefix| + 1..]) ==> |RewriteKey(key)| < |key| - |Prefix| - 1
  {
    CollapseDotsChangesExactlyDoubleDots(key[|Prefix| + 1..]);
  }

  /** Worked examples: a single dot is kept, and only the separator is dropped before `..c`. */
  lemma RewriteKeyExamples()
    ensures RewriteKey(Prefix + ".a.b") == "a.b"
    ensures RewriteKey(Prefix + "..c") == ".c"
    ensures RewriteKey(Prefix + ".a...b") == "a..b"
  {
    assert (Prefix + ".a.b")[|Prefix| + 1..] == "a.b";
    assert (Prefix + "..c")[|Prefix| + 1..] == ".c";
    assert CollapseDots(".c") == "." + CollapseDots("c");
    assert (Prefix + ".a...b")[|Prefix| + 1..] == "a...b";
    assert CollapseDots("a...b") == "a" + CollapseDots("...b");
    assert CollapseDots("...b") == "." + CollapseDots(".b");
    assert CollapseDots(".b") == ".b";
  }

  /** Keys `getProperties` can enumerate from `c`: rewritable, and each with a value. */
  predicate Enumerable(c: Configuration, keys: seq<string>)
  {
    forall i :: 0 <= i < |keys| ==> IsPropertyKey(keys[i]) && GetString(c, keys[i]).Some?
  }

  /** The map that putting the rewritten keys in order builds. */
  function PropertiesOf(c: Configuration, keys: seq<string>): map<string, string>
    requires Enumerable(c, keys)
  {
    if keys == [] then map[]
    else
      var key := keys[|keys| - 1];
      PropertiesOf(c, keys[..|keys| - 1])[RewriteKey(key) := GetString(c, key).value]
  }

  /** The map holds exactly the rewritten keys. */
  lemma {:induction false} PropertiesOfKeys(c: Configuration, keys: seq<string>)
    requires Enumerable(c, keys)
    ensures PropertiesOf(c, keys).Keys == set i | 0 <= i < |keys| :: RewriteKey(keys[i])
  {
    if keys != [] {
      var n := |keys| - 1;
      PropertiesOfKeys(c, keys[..n]);
      assert forall i :: 0 <= i < n ==> keys[..n][i] == keys[i];
      assert (set i | 0 <= i < |keys| :: RewriteKey(keys[i]))
          == (set i | 0 <= i < n :: RewriteKey(keys[..n][i])) + {RewriteKey(keys[n])};
    }
  }

  /** A rewritten key maps to the value of the last enumerated key that rewrites to it. */
  lemma {:induction false} PropertiesOfLastWins(c: Configuration, keys: seq<string>, i: nat)
    requires Enumerable(c, keys) && i < |keys|
    requires forall j :: i < j < |keys| ==> RewriteKey(keys[j]) != RewriteKey(keys[i])
    ensures RewriteKey(keys[i]) in PropertiesOf(c, keys)
    ensures PropertiesOf(c, keys)[RewriteKey(keys[i])] == GetString(c, keys[i]).value
  {
    var n := |keys| - 1;
    if i < n {
      assert keys[..n][i] == keys[i];
      PropertiesOfLastWins(c, keys[..n], i);
    }
  }

  /**
   * `getKeys(prefix)` for the properties prefix. A key equal to the prefix
   * itself would make the source's `substring` throw, so none may occur.
   */
  function PropertyKeys(c: Configuration): (keys: seq<string>)
    requires forall i :: 0 <= i < |c| ==> c[i].0 != Prefix
    ensures Enumerable(c, keys)
    ensures forall k :: k in keys ==> Prefix + "." <= k
    ensures forall i :: 0 <= i < |c| && Prefix + "." <= c[i].0 ==> c[i].0 in keys
  {
    var keys := GetKeys(c, Prefix);
    assert Enumerable(c, keys) by {
      forall i | 0 <= i < |keys|
        ensures IsPropertyKey(keys[i])
      {
        assert keys[i] in keys;
      }
    }
    keys
  }

  /** `getProperties(configuration)`: the loop over the enumerated keys. */
  method GetProperties(c: Configuration) returns (props: map<string, string>)
    requires forall i :: 0 <= i < |c| ==> c[i].0 != Prefix
    ensures props == PropertiesOf(c, PropertyKeys(c))
  {
    var keys := PropertyKeys(c);
    props := map[];
    var i := 0;
    while i < |keys|
      invariant 0 <= i <= |keys|
      invariant Enumerable(c, keys[..i])
      invariant props == PropertiesOf(c, keys[..i])
    {
      var key := keys[i];
      var newkey := RewriteKey(key);
      var value := GetString(c, key).value;
      props := props[newkey := value];
      assert keys[..i + 1][..i] == keys[..i];
      i := i + 1;
    }
    assert keys[..|keys|] == keys;
  }
}

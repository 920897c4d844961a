/**
 * The Git hooks husky-conf knows, the linear membership scan it uses on them,
 * and the script name it derives from a hook name by deleting its dashes.
 */
module Hooks {

  /** The 18 hook names, in the order of the constructor's `this.hooks` list. */
  const HookNames: seq<string> := [
    "applypatch-msg",
    "commit-msg",
    "post-applypatch",
    "post-checkout",
    "post-commit",
    "post-merge",
    "post-receive",
    "post-rewrite",
    "post-update",
    "pre-applypatch",
    "pre-auto-gc",
    "pre-commit",
    "pre-push",
    "pre-rebase",
    "pre-receive",
    "prepare-commit-msg",
    "push-to-checkout",
    "update"
  ]

  /** `list.indexOf(x)`: the first position of `x` in `list`, or -1 when it does not occur. */
  function IndexOf<T(==)>(list: seq<T>, x: T): (r: int)
    ensures -1 <= r < |list|
    ensures r < 0 <==> x !in list
    ensures 0 <= r ==> list[r] == x && x !in list[..r]
  {
    if |list| == 0 then -1
    else if list[0] == x then 0
    else
      var i := IndexOf(list[1..], x);
      if i < 0 then -1
      else
        assert list[..i + 1] == [list[0]] + list[1..][..i];
        i + 1
  }

  /** `value.replace(/-/g, '')`: the string with every '-' deleted. */
  function RemoveDash(s: string): (r: string)
    ensures '-' !in r
  {
    if s == [] then []
    else RemoveDash(s[..|s| - 1]) + (if s[|s| - 1] == '-' then [] else [s[|s| - 1]])
  }

  /** Deleting dashes acts on each part of a concatenation separately, so order is kept. */
  lemma {:induction false} RemoveDashAppend(a: string, b: string)
    ensures RemoveDash(a + b) == RemoveDash(a) + RemoveDash(b)
    decreases |b|
  {
    if b == [] {
      assert a + b == a;
    } else {
      assert (a + b)[..|a + b| - 1] == a + b[..|b| - 1];
      RemoveDashAppend(a, b[..|b| - 1]);
    }
  }

  /** On one character: a dash disappears, any other character stays. */
  lemma RemoveDashChar(c: char)
    ensures RemoveDash([c]) == if c == '-' then [] else [c]
  {
    assert [c][..0] == [];
  }

  /** Every character other than '-' occurs as often in the result as in the input. */
  lemma {:induction false} RemoveDashKeepsOthers(s: string, c: char)
    requires c != '-'
    ensures multiset(RemoveDash(s))[c] == multiset(s)[c]
  {
    if s != [] {
      var init := s[..|s| - 1];
      RemoveDashKeepsOthers(init, c);
      assert s == init + [s[|s| - 1]];
    }
  }

  /** A string without dashes is its own script name. */
  lemma {:induction false} RemoveDashKeeps(s: string)
    requires '-' !in s
    ensures RemoveDash(s) == s
  {
    if s != [] {
      RemoveDashKeeps(s[..|s| - 1]);
    }
  }

  /** Deleting dashes twice is deleting them once. */
  lemma RemoveDashIdempotent(s: string)
    ensures RemoveDash(RemoveDash(s)) == RemoveDash(s)
  {
    RemoveDashKeeps(RemoveDash(s));
  }

  lemma RemoveDashOfDash()
    ensures RemoveDash("-") == []
  {
    RemoveDashChar('-');
  }

  lemma Hyphen(a: string, b: string)
    requires '-' !in b
    ensures RemoveDash(a + "-" + b) == RemoveDash(a) + b
  {
    RemoveDashAppend(a + "-", b);
    RemoveDashAppend(a, "-");
    RemoveDashKeeps(b);
    RemoveDashOfDash();
  }

  /** The script name of a two-word hook name such as "pre-push". */
  lemma TwoWords(h: string, a: string, b: string)
    requires h == a + "-" + b && '-' !in a && '-' !in b
    ensures RemoveDash(h) == a + b
  {
    Hyphen(a, b);
    RemoveDashKeeps(a);
  }

  /** The script name of a three-word hook name such as "pre-auto-gc". */
  lemma ThreeWords(h: string, a: string, b: string, c: string)
    requires h == a + "-" + b + "-" + c && '-' !in a && '-' !in b && '-' !in c
    ensures RemoveDash(h) == a + b + c
  {
    Hyphen(a + "-" + b, c);
    TwoWords(a + "-" + b, a, b);
  }

  /** The script names of the 18 hooks, position by position. */
  const ScriptKeys: seq<string> := [
    "applypatchmsg",
    "commitmsg",
    "postapplypatch",
    "postcheckout",
    "postcommit",
    "postmerge",
    "postreceive",
    "postrewrite",
    "postupdate",
    "preapplypatch",
    "preautogc",
    "precommit",
    "prepush",
    "prerebase",
    "prereceive",
    "preparecommitmsg",
    "pushtocheckout",
    "update"
  ]

  // The table is proved two positions at a time, which keeps each proof small;
  // the three-word names have a lemma each.

  lemma PreAutoGc()
    ensures RemoveDash(HookNames[10]) == ScriptKeys[10]
  {
    ThreeWords("pre-auto-gc", "pre", "auto", "gc");
  }

  lemma PrepareCommitMsg()
    ensures RemoveDash(HookNames[15]) == ScriptKeys[15]
  {
    ThreeWords("prepare-commit-msg", "prepare", "commit", "msg");
  }

  lemma PushToCheckout()
    ensures RemoveDash(HookNames[16]) == ScriptKeys[16]
  {
    ThreeWords("push-to-checkout", "push", "to", "checkout");
  }
  lemma ScriptKeys0And1(i: nat)
    requires 0 <= i < 2
    ensures RemoveDash(HookNames[i]) == ScriptKeys[i]
  {
    if i == 0 { TwoWords(HookNames[i], "applypatch", "msg"); }
    else { TwoWords(HookNames[i], "commit", "msg"); }
  }

  lemma ScriptKeys2And3(i: nat)
    requires 2 <= i < 4
    ensures RemoveDash(HookNames[i]) == ScriptKeys[i]
  {
    if i == 2 { TwoWords(HookNames[i], "post", "applypatch"); }
    else { TwoWords(HookNames[i], "post", "checkout"); }
  }

  lemma ScriptKeys4And5(i: nat)
    requires 4 <= i < 6
    ensures RemoveDash(HookNames[i]) == ScriptKeys[i]
  {
    if i == 4 { TwoWords(HookNames[i], "post", "commit"); }
    else { TwoWords(HookNames[i], "post", "merge"); }
  }

  lemma ScriptKeys6And7(i: nat)
    requires 6 <= i < 8
    ensures RemoveDash(HookNames[i]) == ScriptKeys[i]
  {
    if i == 6 { TwoWords(HookNames[i], "post", "receive"); }
    else { TwoWords(HookNames[i], "post", "rewrite"); }
  }

  lemma ScriptKeys8And9(i: nat)
    requires 8 <= i < 10
    ensures RemoveDash(HookNames[i]) == ScriptKeys[i]
  {
    if i == 8 { TwoWords(HookNames[i], "post", "update"); }
    else { TwoWords(HookNames[i], "pre", "applypatch"); }
  }

  lemma ScriptKeys10And11(i: nat)
    requires 10 <= i < 12
    ensures RemoveDash(HookNames[i]) == ScriptKeys[i]
  {
    if i == 10 { PreAutoGc(); }
    else { TwoWords(HookNames[i], "pre", "commit"); }
  }

  lemma ScriptKeys12And13(i: nat)
    requires 12 <= i < 14
    ensures RemoveDash(HookNames[i]) == ScriptKeys[i]
  {
    if i == 12 { TwoWords(HookNames[i], "pre", "push"); }
    else { TwoWords(HookNames[i], "pre", "rebase"); }
  }

  lemma ScriptKeys14And15(i: nat)
    requires 14 <= i < 16
    ensures RemoveDash(HookNames[i]) == ScriptKeys[i]
  {
    if i == 14 { TwoWords(HookNames[i], "pre", "receive"); }
    else { PrepareCommitMsg(); }
  }

  lemma ScriptKeys16And17(i: nat)
    requires 16 <= i < 18
    ensures RemoveDash(HookNames[i]) == ScriptKeys[i]
  {
    if i == 16 { PushToCheckout(); }
    else { RemoveDashKeeps(HookNames[i]); }
  }

  /** The script name of the i-th hook is the i-th entry of ScriptKeys. */
  lemma ScriptKeyAt(i: nat)
    requires i < |HookNames|
    ensures |ScriptKeys| == |HookNames| && RemoveDash(HookNames[i]) == ScriptKeys[i]
  {
    if i < 2 { ScriptKeys0And1(i); }
    else if i < 4 { ScriptKeys2And3(i); }
    else if i < 6 { ScriptKeys4And5(i); }
    else if i < 8 { ScriptKeys6And7(i); }
    else if i < 10 { ScriptKeys8And9(i); }
    else if i < 12 { ScriptKeys10And11(i); }
    else if i < 14 { ScriptKeys12And13(i); }
    else if i < 16 { ScriptKeys14And15(i); }
    else { ScriptKeys16And17(i); }
  }

  lemma ScriptKeysDistinct(i: nat, j: nat)
    requires i < j < |ScriptKeys|
    ensures ScriptKeys[i] != ScriptKeys[j]
  {
  }

  /** Two known hooks never share a script name, so each hook owns its own script entry. */
  lemma ScriptKeyInjective(a: string, b: string)
    requires a in HookNames && b in HookNames
    requires RemoveDash(a) == RemoveDash(b)
    ensures a == b
  {
    var i, j := IndexOf(HookNames, a), IndexOf(HookNames, b);
    ScriptKeyAt(i);
    ScriptKeyAt(j);
    if i < j {
      ScriptKeysDistinct(i, j);
    } else if j < i {
      ScriptKeysDistinct(j, i);
    }
  }

  /** No known hook derives the script name "test", so adding a hook never touches `test`. */
  lemma ScriptKeyNotTest(h: string)
    requires h in HookNames
    ensures RemoveDash(h) != "test"
  {
    var i := IndexOf(HookNames, h);
    ScriptKeyAt(i);
    NoScriptKeyIsTest(i);
  }

  lemma NoScriptKeyIsTest(i: nat)
    requires i < |ScriptKeys|
    ensures ScriptKeys[i] != "test"
  {
  }
}

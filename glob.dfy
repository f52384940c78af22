/** A glob matcher for the subset of shell patterns the router's tests use:
    literal characters, `*` (any run of characters, possibly empty), `?`
    (exactly one character), `[...]` (one character from the set) and
    `[!...]` (one character not in the set). A class ends at the first `]`
    after `[` or `[!`; a `[` with no closing `]` is a literal character. */
module Glob {

  predicate IsMeta(c: char) {
    c == '*' || c == '?' || c == '['
  }

  /** A pattern without metacharacters: it can only match itself. */
  predicate IsLiteral(p: string) {
    forall i :: 0 <= i < |p| ==> !IsMeta(p[i])
  }

  /** The index of the first `]` in `p` at or after `i`, or -1 if there is none. */
  function CloseIndex(p: string, i: nat): (e: int)
    decreases |p| - i
    ensures e == -1 || (i <= e < |p| && p[e] == ']')
    ensures e == -1 ==> forall k :: i <= k < |p| ==> p[k] != ']'
    ensures e != -1 ==> forall k :: i <= k < e ==> p[k] != ']'
  {
    if i >= |p| then -1
    else if p[i] == ']' then i
    else CloseIndex(p, i + 1)
  }

  /** True iff the whole of `name` matches the whole of `pattern`. */
  function GlobMatch(name: string, pattern: string): (m: bool)
    decreases |pattern|, |name|
    ensures pattern == [] ==> (m <==> name == [])
    ensures m && pattern != [] && pattern[0] != '*' ==> name != []
    ensures m && name == [] ==> forall i :: 0 <= i < |pattern| ==> pattern[i] == '*'
  {
    if pattern == [] then name == []
    else if pattern[0] == '*' then
      GlobMatch(name, pattern[1..]) || (name != [] && GlobMatch(name[1..], pattern))
    else if pattern[0] == '?' then
      name != [] && GlobMatch(name[1..], pattern[1..])
    else if pattern[0] == '[' && CloseIndex(pattern, ClassStart(pattern)) != -1 then
      var j := ClassStart(pattern);
      var e := CloseIndex(pattern, j);
      name != [] && (name[0] in pattern[j..e]) != (j == 2) && GlobMatch(name[1..], pattern[e + 1..])
    else
      name != [] && name[0] == pattern[0] && GlobMatch(name[1..], pattern[1..])
  }

  /** Where the members of a class that opens at `p[0]` begin: after `[!`, or after `[`. */
  function ClassStart(p: string): (j: nat)
    ensures j == 1 || j == 2
  {
    if |p| > 1 && p[1] == '!' then 2 else 1
  }

  /** A pattern without metacharacters matches exactly the name equal to it. */
  lemma {:induction false} LiteralMatchesOnlyItself(name: string, pattern: string)
    requires IsLiteral(pattern)
    ensures GlobMatch(name, pattern) <==> name == pattern
  {
    if pattern != [] {
      assert !IsMeta(pattern[0]);
      assert IsLiteral(pattern[1..]) by {
        forall i | 0 <= i < |pattern[1..]| ensures !IsMeta(pattern[1..][i]) {
          assert pattern[1..][i] == pattern[i + 1];
        }
      }
      if name != [] {
        LiteralMatchesOnlyItself(name[1..], pattern[1..]);
        if name[0] == pattern[0] && name[1..] == pattern[1..] {
          assert name == [name[0]] + name[1..];
          assert pattern == [pattern[0]] + pattern[1..];
        }
      }
    }
  }

  /** `*` alone matches every name. */
  lemma {:induction false} StarMatchesEverything(name: string)
    ensures GlobMatch(name, "*")
  {
    if name != [] {
      StarMatchesEverything(name[1..]);
    }
  }

  /** A literal prefix followed by `*` matches every name that starts with that prefix. */
  lemma {:induction false} LiteralPrefixStar(prefix: string, rest: string)
    requires IsLiteral(prefix)
    ensures GlobMatch(prefix + rest, prefix + "*")
  {
    if prefix == [] {
      assert prefix + rest == rest;
      assert prefix + "*" == "*";
      StarMatchesEverything(rest);
    } else {
      assert !IsMeta(prefix[0]);
      assert IsLiteral(prefix[1..]) by {
        forall i | 0 <= i < |prefix[1..]| ensures !IsMeta(prefix[1..][i]) {
          assert prefix[1..][i] == prefix[i + 1];
        }
      }
      LiteralPrefixStar(prefix[1..], rest);
      assert (prefix + rest)[1..] == prefix[1..] + rest;
      assert (prefix + "*")[1..] == prefix[1..] + "*";
    }
  }

  /** A name cannot match a pattern that demands one more literal character
      after the whole of that name. */
  lemma {:induction false} LiteralPrefixNeedsMore(prefix: string, c: char, rest: string)
    requires IsLiteral(prefix) && !IsMeta(c)
    ensures !GlobMatch(prefix, prefix + [c] + rest)
  {
    if prefix == [] {
      assert prefix + [c] + rest == [c] + rest;
    } else {
      assert !IsMeta(prefix[0]);
      assert IsLiteral(prefix[1..]) by {
        forall i | 0 <= i < |prefix[1..]| ensures !IsMeta(prefix[1..][i]) {
          assert prefix[1..][i] == prefix[i + 1];
        }
      }
      LiteralPrefixNeedsMore(prefix[1..], c, rest);
      assert (prefix + [c] + rest)[1..] == prefix[1..] + [c] + rest;
    }
  }

  /** `Gevent.foo` registered as a pattern is a plain event name (test.js). */
  lemma LiteralExample()
    ensures GlobMatch("Gevent.foo", "Gevent.foo")
    ensures !GlobMatch("Gevent.bar", "Gevent.foo")
  {
    LiteralMatchesOnlyItself("Gevent.foo", "Gevent.foo");
    LiteralMatchesOnlyItself("Gevent.bar", "Gevent.foo");
  }

  /** The plain key `Gevent.foo` does not match the event `Gevent.foo.bar`. */
  lemma LongerNameExample()
    ensures !GlobMatch("Gevent.foo.bar", "Gevent.foo")
  {
    LiteralMatchesOnlyItself("Gevent.foo.bar", "Gevent.foo");
  }

  /** `Gevent.foo.*` matches `Gevent.foo.bar` but not `Gevent.foo`. */
  lemma DottedStarExample()
    ensures GlobMatch("Gevent.foo.bar", "Gevent.foo.*")
    ensures !GlobMatch("Gevent.foo", "Gevent.foo.*")
  {
    LiteralPrefixNeedsMore("Gevent.foo", '.', "*");
    assert "Gevent.foo" + ['.'] + "*" == "Gevent.foo.*";
    LiteralPrefixStar("Gevent.foo.", "bar");
    assert "Gevent.foo." + "bar" == "Gevent.foo.bar";
    assert "Gevent.foo." + "*" == "Gevent.foo.*";
  }

  /** `foo.*` matches `foo.bar` (test.js, pattern callback on subscribe). */
  lemma FooStarExample()
    ensures GlobMatch("foo.bar", "foo.*")
  {
    LiteralPrefixStar("foo.", "bar");
    assert "foo." + "bar" == "foo.bar";
    assert "foo." + "*" == "foo.*";
  }

  lemma QuestionExample()
    ensures GlobMatch("abc", "a?c")
  {
  }

  lemma StarExample()
    ensures GlobMatch("what", "w*t")
  {
  }

  lemma ClassExample()
    ensures GlobMatch("cow", "c[o]w")
    ensures !GlobMatch("caw", "c[o]w")
    ensures GlobMatch("caw", "c[!o]w")
  {
  }

  lemma InfixExample()
    ensures GlobMatch("milk", "*il*")
  {
  }
}

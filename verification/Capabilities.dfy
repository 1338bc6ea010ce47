/** Capability strings, capfence/core/capabilities.py:54-96. */
module Capabilities {
  import opened Json

  datatype Capability = Capability(resource: string, action: string, scope: string)

  predicate ValidChar(c: char)
  {
    'a' <= c <= 'z' || 'A' <= c <= 'Z' || '0' <= c <= '9' || c == '_' || c == '-' || c == '.' || c == '*'
  }

  /** The allowed characters. */
  lemma ValidCharIff(c: char)
    ensures ValidChar(c)
            <==> || c in "abcdefghijklmnopqrstuvwxyz" || c in "ABCDEFGHIJKLMNOPQRSTUVWXYZ"
                 || c in "0123456789" || c in "_-.*"
  {
    ghost var lower, upper, digits := "abcdefghijklmnopqrstuvwxyz", "ABCDEFGHIJKLMNOPQRSTUVWXYZ", "0123456789";
    assert forall i :: 0 <= i < 26 ==> lower[i] as int == 97 + i && upper[i] as int == 65 + i;
    assert forall i :: 0 <= i < 10 ==> digits[i] as int == 48 + i;
    if 'a' <= c <= 'z' {
      assert c == lower[c as int - 97];
    } else if 'A' <= c <= 'Z' {
      assert c == upper[c as int - 65];
    } else if '0' <= c <= '9' {
      assert c == digits[c as int - 48];
    }
  }

  predicate AllValid(s: string)
  {
    forall i :: 0 <= i < |s| ==> ValidChar(s[i])
  }

  predicate EndsInNewline(s: string)
  {
    s != "" && s[|s| - 1] == '\n'
  }

  /** `re.match(r"^[a-zA-Z0-9_\-\.\*]+$", s)`: the `$` also matches in front of one final newline. */
  predicate Valid(s: string)
  {
    (s != "" && AllValid(s)) || (EndsInNewline(s) && |s| > 1 && AllValid(s[..|s| - 1]))
  }

  /** Of the allowed characters every text that is not empty is accepted, also in front of one newline, and no other. */
  lemma {:induction false} AcceptedIff(s: string)
    ensures Valid(s) <==> exists text :: AllValid(text) && text != "" && (s == text || s == text + "\n")
  {
    if Valid(s) {
      if s != "" && AllValid(s) {
      } else {
        var text := s[..|s| - 1];
        assert s == text + "\n" && text != "";
      }
    }
    if text :| AllValid(text) && text != "" && (s == text || s == text + "\n") {
      if s == text + "\n" {
        assert s[..|s| - 1] == text && s[|s| - 1] == '\n';
      }
    }
  }

  /** The position of the first dot at or after `i`, |s| when there is none. */
  function Dot(s: string, i: nat): (d: nat)
    requires i <= |s|
    ensures i <= d <= |s| && (d < |s| ==> s[d] == '.')
    ensures forall j :: i <= j < d ==> s[j] != '.'
    decreases |s| - i
  {
    if i == |s| || s[i] == '.' then i else Dot(s, i + 1)
  }

  /** `s.split(".", n)`. */
  function Split(s: string, n: nat): (parts: seq<string>)
    ensures 1 <= |parts| <= n + 1
  {
    var d := Dot(s, 0);
    if n == 0 || d == |s| then [s] else [s[..d]] + Split(s[d + 1..], n - 1)
  }

  function Join(parts: seq<string>): string
    requires parts != []
  {
    if |parts| == 1 then parts[0] else parts[0] + "." + Join(parts[1..])
  }

  function Parse(s: string): Option<Capability>
  {
    if !Valid(s) then None
    else
      var parts := Split(s, 2);
      Some(Capability(
        parts[0],
        if |parts| >= 2 then parts[1] else "*",
        if |parts| == 3 then parts[2] else "*"))
  }

  /** `__str__`. */
  function Show(c: Capability): string
  {
    c.resource + "." + c.action + "." + c.scope
  }

  predicate MatchPart(granted: string, required: string)
  {
    granted == "*" || granted == required
  }

  predicate Covers(granted: Capability, required: Capability)
  {
    && MatchPart(granted.resource, required.resource)
    && MatchPart(granted.action, required.action)
    && MatchPart(granted.scope, required.scope)
  }

  const TOP := Capability("*", "*", "*")

  /** Covering is a partial order with `*.*.*` on top. */
  lemma CoveringIsPartialOrder(a: Capability, b: Capability, c: Capability)
    ensures Covers(a, a) && Covers(TOP, a)
    ensures Covers(a, b) && Covers(b, c) ==> Covers(a, c)
    ensures Covers(a, b) && Covers(b, a) ==> a == b
    ensures Covers(a, TOP) ==> a == TOP
  {
  }

  predicate IsConcrete(c: Capability)
  {
    "*" !in {c.resource, c.action, c.scope}
  }

  /** The concrete capabilities that a capability stands for: a part that is `*` may be anything. */
  predicate StandsFor(c: Capability, concrete: Capability)
  {
    && c.resource in {"*", concrete.resource} && c.action in {"*", concrete.action}
    && c.scope in {"*", concrete.scope}
  }

  /** Covering is inclusion: one capability covers another if and only if it stands for every concrete capability that
      the other stands for. */
  lemma CoversIffStandsForMore(a: Capability, b: Capability)
    ensures Covers(a, b) <==> forall c :: IsConcrete(c) && StandsFor(b, c) ==> StandsFor(a, c)
  {
    var c := Capability(Instance(b.resource, a.resource), Instance(b.action, a.action), Instance(b.scope, a.scope));
    assert IsConcrete(c) && StandsFor(b, c);
  }

  /** What a part can stand for, other than `avoid` if there is a choice. */
  function Instance(part: string, avoid: string): (s: string)
    ensures s != "*" && (if part == "*" then s != avoid else s == part)
  {
    if part != "*" then part else if avoid == "x" then "y" else "x"
  }

  // ---------------------------------------------------------------- splitting and joining

  predicate NoDot(s: string)
  {
    forall i :: 0 <= i < |s| ==> s[i] != '.'
  }

  /** Splitting loses nothing. */
  lemma {:induction false} SplitJoin(s: string, n: nat)
    ensures Join(Split(s, n)) == s
  {
    var d := Dot(s, 0);
    if n > 0 && d < |s| {
      var rest := Split(s[d + 1..], n - 1);
      SplitJoin(s[d + 1..], n - 1);
      assert ([s[..d]] + rest)[1..] == rest;
      assert s == s[..d] + "." + s[d + 1..];
    }
  }

  /** All parts but the last have no dots, and the last has none unless the limit was reached. */
  lemma {:induction false} SplitParts(s: string, n: nat, i: nat)
    requires i < |Split(s, n)|
    ensures i < |Split(s, n)| - 1 || |Split(s, n)| <= n ==> NoDot(Split(s, n)[i])
  {
    var d := Dot(s, 0);
    if n > 0 && d < |s| && i > 0 {
      SplitParts(s[d + 1..], n - 1, i - 1);
    }
  }

  lemma {:induction false} DotAfter(a: string, b: string)
    requires NoDot(a)
    ensures Dot(a + "." + b, 0) == |a|
  {
    var s := a + "." + b;
    assert s[|a|] == '.';
    assert forall j :: 0 <= j < |a| ==> s[j] == a[j];
  }

  /** Three parts of which the first two have no dots are found again. */
  lemma {:induction false} SplitThree(a: string, b: string, c: string)
    requires NoDot(a) && NoDot(b)
    ensures Split(a + "." + b + "." + c, 2) == [a, b, c]
  {
    var tail := b + "." + c;
    var s := a + "." + b + "." + c;
    assert s == a + "." + tail;
    DotAfter(a, tail);
    assert s[..|a|] == a && s[|a| + 1..] == tail;
    DotAfter(b, c);
    assert tail[..|b|] == b && tail[|b| + 1..] == c;
    assert Split(tail, 1) == [b] + Split(c, 0);
  }

  lemma ParseThree(a: string, b: string, c: string)
    requires NoDot(a) && NoDot(b) && AllValid(a) && AllValid(b) && AllValid(c)
    ensures Parse(a + "." + b + "." + c) == Some(Capability(a, b, c))
  {
    SplitThree(a, b, c);
    var s := a + "." + b + "." + c;
    assert forall i :: 0 <= i < |s| ==> ValidChar(s[i]);
  }

  lemma ParseTwo(a: string, b: string)
    requires NoDot(a) && NoDot(b) && AllValid(a) && AllValid(b)
    ensures Parse(a + "." + b) == Some(Capability(a, b, "*"))
  {
    var s := a + "." + b;
    DotAfter(a, b);
    assert s[..|a|] == a && s[|a| + 1..] == b;
    var d := Dot(b, 0);
    assert Split(s, 2) == [a] + Split(b, 1) && Split(b, 1) == [b];
    assert forall i :: 0 <= i < |s| ==> ValidChar(s[i]);
  }

  // ---------------------------------------------------------------- round trip

  /** Printing a parsed capability and parsing it again gives the same capability, for every accepted text
      but those with fewer than two dots that end in a newline; those print as a text that is refused. */
  lemma {:induction false} RoundTrip(s: string)
    requires Valid(s)
    ensures var c := Parse(s).value;
      Parse(Show(c)) == (if EndsInNewline(s) && |Split(s, 2)| < 3 then None else Some(c))
  {
    if |Split(s, 2)| == 3 {
      LongShow(s);
    } else {
      ShortShow(s);
      ShortValidity(s, if |Split(s, 2)| == 1 then ".*.*" else ".*");
      if !EndsInNewline(s) {
        var c := Parse(s).value;
        SplitThree(c.resource, c.action, c.scope);
      }
    }
  }

  lemma {:induction false} LongShow(s: string)
    requires Valid(s) && |Split(s, 2)| == 3
    ensures Show(Parse(s).value) == s
  {
    hide Valid, Join, Split;
    SplitJoin(s, 2);
    JoinThree(Split(s, 2));
  }

  lemma {:induction false} JoinThree(parts: seq<string>)
    requires |parts| == 3
    ensures Join(parts) == parts[0] + "." + parts[1] + "." + parts[2]
  {
    assert parts[1..][1..] == [parts[2]];
    assert Join(parts[1..]) == parts[1] + "." + parts[2];
  }

  /** Appending missing parts keeps a text acceptable unless it ended in a newline. */
  lemma ShortValidity(s: string, tail: string)
    requires Valid(s) && AllValid(tail) && tail != ""
    ensures Valid(s + tail) <==> !EndsInNewline(s)
  {
    var all := s + tail;
    assert all[|all| - 1] == tail[|tail| - 1];
    assert ValidChar(tail[|tail| - 1]);
    if EndsInNewline(s) {
      assert all[|s| - 1] == '\n' && !ValidChar('\n');
    }
  }

  /** A text with fewer than two dots is printed with the missing parts filled in. */
  lemma {:induction false} ShortShow(s: string)
    requires Valid(s) && |Split(s, 2)| < 3
    ensures Show(Parse(s).value) == s + (if |Split(s, 2)| == 1 then ".*.*" else ".*")
    ensures NoDot(Parse(s).value.resource) && NoDot(Parse(s).value.action)
  {
    var parts := Split(s, 2);
    var c := Parse(s).value;
    SplitJoin(s, 2);
    SplitParts(s, 2, 0);
    SplitParts(s, 2, |parts| - 1);
    assert NoDot("*");
    if |parts| == 1 {
      assert parts[0] == s;
      assert Show(c) == s + "." + "*" + "." + "*";
    } else {
      assert parts[1..] == [parts[1]];
      assert Show(c) == s + "." + "*";
    }
  }
}

/**
  The two pieces of Go's standard library whose results the handler's
  decisions depend on: `strings.Contains` (the provider's success test) and
  `fmt.Sprintf` with `%s` verbs only (the update URL and the notified
  hostname).
 */
module GoLibrary {

  /** `strings.HasPrefix`. */
  predicate HasPrefix(s: string, prefix: string) {
    |prefix| <= |s| && s[..|prefix|] == prefix
  }

  /** `sub` occurs in `s` starting at index `i`. */
  predicate OccursAt(s: string, sub: string, i: nat) {
    i + |sub| <= |s| && s[i..i + |sub|] == sub
  }

  /** `strings.Contains`: `sub` is a prefix of some suffix of `s`. */
  predicate Contains(s: string, sub: string)
    decreases |s|
  {
    HasPrefix(s, sub) || (|s| > 0 && Contains(s[1..], sub))
  }

  /** `Contains` agrees with the positional definition of a substring. */
  lemma {:induction false} ContainsIffOccurs(s: string, sub: string)
    ensures Contains(s, sub) <==> exists i: nat :: OccursAt(s, sub, i)
    decreases |s|
  {
    if HasPrefix(s, sub) {
      assert OccursAt(s, sub, 0);
    } else if |s| > 0 {
      ContainsIffOccurs(s[1..], sub);
      if Contains(s[1..], sub) {
        var j: nat :| OccursAt(s[1..], sub, j);
        assert s[1..][j..j + |sub|] == s[j + 1..j + 1 + |sub|];
        assert OccursAt(s, sub, j + 1);
      }
      if i: nat :| OccursAt(s, sub, i) {
        assert s[1..][i - 1..i - 1 + |sub|] == s[i..i + |sub|];
        assert OccursAt(s[1..], sub, i - 1);
      }
    }
  }

  /** Number of `%` characters in a format template. */
  function Verbs(t: string): nat
    decreases |t|
  {
    if |t| == 0 then 0 else (if t[0] == '%' then 1 else 0) + Verbs(t[1..])
  }

  /** Every `%` of the template starts a `%s` verb. */
  predicate OnlyStringVerbs(t: string) {
    forall i :: 0 <= i < |t| && t[i] == '%' ==> i + 1 < |t| && t[i + 1] == 's'
  }

  /**
    `fmt.Sprintf(t, args...)` for a template whose only verbs are `%s` and
    exactly as many string arguments as verbs: each `%s` is replaced, left
    to right, by the next argument, which is inserted verbatim.
   */
  function Sprintf(t: string, args: seq<string>): string
    requires OnlyStringVerbs(t) && Verbs(t) == |args|
    decreases |t|
  {
    if |t| == 0 then ""
    else if t[0] == '%' then
      assert t[1..][0] == 's' && t[1..][1..] == t[2..];
      assert Verbs(t[1..]) == Verbs(t[2..]);
      args[0] + Sprintf(t[2..], args[1..])
    else
      [t[0]] + Sprintf(t[1..], args)
  }

  /** A template without `%` formats to itself. */
  lemma {:induction false} SprintfNoVerbs(t: string)
    requires '%' !in t
    ensures OnlyStringVerbs(t) && Verbs(t) == 0 && Sprintf(t, []) == t
    decreases |t|
  {
    if |t| > 0 {
      assert '%' !in t[1..] by {
        forall i | 0 <= i < |t[1..]| ensures t[1..][i] != '%' {
          assert t[1..][i] == t[i + 1];
        }
      }
      SprintfNoVerbs(t[1..]);
      assert [t[0]] + t[1..] == t;
    }
  }

  /** Literal text in front of a template is copied through unchanged. */
  lemma {:induction false} SprintfLiteral(lit: string, t: string, args: seq<string>)
    requires '%' !in lit
    requires OnlyStringVerbs(t) && Verbs(t) == |args|
    ensures OnlyStringVerbs(lit + t) && Verbs(lit + t) == |args|
    ensures Sprintf(lit + t, args) == lit + Sprintf(t, args)
    decreases |lit|
  {
    if lit == [] {
      assert lit + t == t;
    } else {
      assert (lit + t)[1..] == lit[1..] + t;
      assert '%' !in lit[1..] by {
        forall i | 0 <= i < |lit[1..]| ensures lit[1..][i] != '%' {
          assert lit[1..][i] == lit[i + 1];
        }
      }
      SprintfLiteral(lit[1..], t, args);
      assert lit == [lit[0]] + lit[1..];
      assert (lit + t)[0] == lit[0];
      forall i | 0 <= i < |lit + t| && (lit + t)[i] == '%'
        ensures i + 1 < |lit + t| && (lit + t)[i + 1] == 's'
      {
        assert i > 0;
        assert (lit + t)[i] == (lit[1..] + t)[i - 1];
        assert (lit + t)[i + 1] == (lit[1..] + t)[i];
      }
    }
  }

  /** A leading `%s` is replaced by the first argument. */
  lemma SprintfVerb(a: string, t: string, args: seq<string>)
    requires OnlyStringVerbs(t) && Verbs(t) == |args|
    ensures OnlyStringVerbs("%s" + t) && Verbs("%s" + t) == |args| + 1
    ensures Sprintf("%s" + t, [a] + args) == a + Sprintf(t, args)
  {
    var u := "%s" + t;
    assert u[1..] == "s" + t;
    assert u[1..][1..] == t;
    assert u[2..] == t;
    assert ([a] + args)[1..] == args;
    forall i | 0 <= i < |u| && u[i] == '%' ensures i + 1 < |u| && u[i + 1] == 's' {
      if i > 0 {
        assert i > 1;
        assert u[i] == t[i - 2];
        assert u[i + 1] == t[i - 1];
      }
    }
  }

  /** A template with three `%s` verbs between literal texts. */
  lemma SprintfThree(t0: string, t1: string, t2: string, t3: string, a: string, b: string, c: string)
    requires '%' !in t0 && '%' !in t1 && '%' !in t2 && '%' !in t3
    ensures var t := t0 + ("%s" + (t1 + ("%s" + (t2 + ("%s" + t3)))));
      && OnlyStringVerbs(t) && Verbs(t) == 3
      && Sprintf(t, [a, b, c]) == t0 + (a + (t1 + (b + (t2 + (c + t3)))))
  {
    SprintfNoVerbs(t3);
    SprintfVerb(c, t3, []);
    assert [c] + [] == [c];
    SprintfLiteral(t2, "%s" + t3, [c]);
    SprintfVerb(b, t2 + ("%s" + t3), [c]);
    assert [b] + [c] == [b, c];
    SprintfLiteral(t1, "%s" + (t2 + ("%s" + t3)), [b, c]);
    SprintfVerb(a, t1 + ("%s" + (t2 + ("%s" + t3))), [b, c]);
    assert [a] + [b, c] == [a, b, c];
    SprintfLiteral(t0, "%s" + (t1 + ("%s" + (t2 + ("%s" + t3)))), [a, b, c]);
  }
}

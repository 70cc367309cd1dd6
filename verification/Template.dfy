/** Identity strings generated from a template in which "@ID" stands for the client's index (setup.go). */
module Template {
  import opened Text

  const VARIABLE := "@ID"

  /** What the formatter prints for a "%d" that has no argument left. */
  const MISSING := "%!d(MISSING)"

  predicate HasVariable(s: string) {
    |s| >= 3 && (s[..3] == VARIABLE || HasVariable(s[1..]))
  }

  /** The program hands the template to a formatter, so a '%' of the user's would be read as a verb. */
  predicate Usable(s: string) { HasVariable(s) ==> '%' !in s }

  /** Formats the occurrences of the variable in s when no argument is left for them. */
  function WithoutArgument(s: string): string {
    if |s| < 3 then s
    else if s[..3] == VARIABLE then MISSING + WithoutArgument(s[3..])
    else [s[0]] + WithoutArgument(s[1..])
  }

  /** genStrFunc: the first occurrence becomes the index, a template without one is used as it is. */
  function Generate(s: string, id: nat): string
    requires Usable(s)
  {
    if |s| < 3 then s
    else if s[..3] == VARIABLE then Decimal(id) + WithoutArgument(s[3..])
    else if HasVariable(s[1..]) then [s[0]] + Generate(s[1..], id)
    else s
  }

  lemma {:induction false} WithoutArgumentCopies(s: string)
    requires !HasVariable(s)
    ensures WithoutArgument(s) == s
  {
    if |s| >= 3 {
      WithoutArgumentCopies(s[1..]);
      assert s == [s[0]] + s[1..];
    }
  }

  lemma NotAtStart(prefix: string, suffix: string)
    requires prefix != "" && !HasVariable(prefix)
    ensures (prefix + VARIABLE + suffix)[..3] != VARIABLE
    ensures !HasVariable(prefix[1..])
  {
    var s := prefix + VARIABLE + suffix;
    if |prefix| >= 3 {
      assert s[..3] == prefix[..3];
    } else {
      assert s[..3][|prefix|] == '@' != VARIABLE[|prefix|];
    }
  }

  lemma {:induction false} VariableInside(prefix: string, suffix: string)
    ensures HasVariable(prefix + VARIABLE + suffix)
  {
    var s := prefix + VARIABLE + suffix;
    if prefix == "" {
      assert s[..3] == VARIABLE;
    } else {
      VariableInside(prefix[1..], suffix);
      assert s[1..] == prefix[1..] + VARIABLE + suffix;
    }
  }

  /** The variable stands at position k. */
  predicate VariableAt(s: string, k: nat) { k + 3 <= |s| && s[k] == '@' && s[k + 1] == 'I' && s[k + 2] == 'D' }

  lemma VariableAtStart(s: string)
    requires |s| >= 3
    ensures s[..3] == VARIABLE <==> VariableAt(s, 0)
  {
    assert s[..3] == [s[0], s[1], s[2]];
  }

  /** A template mentions the variable exactly when "@ID" stands somewhere in it. */
  lemma {:induction false} VariableOccurs(s: string)
    ensures HasVariable(s) <==> exists k: nat :: VariableAt(s, k)
  {
    if |s| >= 3 {
      VariableAtStart(s);
      VariableOccurs(s[1..]);
      assert forall k: nat :: VariableAt(s[1..], k) <==> VariableAt(s, k + 1);
      if !VariableAt(s, 0) {
        forall k: nat | VariableAt(s, k) ensures HasVariable(s[1..]) { assert VariableAt(s[1..], k - 1); }
        if k: nat :| VariableAt(s[1..], k) { assert VariableAt(s, k + 1); }
      }
    }
  }

  /** A template without the variable is used as it is. */
  lemma {:induction false} GenerateNone(s: string, id: nat)
    requires !HasVariable(s)
    ensures Generate(s, id) == s
  {}

  /** Only the first variable becomes the index, every later one the formatter's complaint. */
  lemma {:induction false} GenerateFirst(prefix: string, suffix: string, id: nat)
    requires !HasVariable(prefix) && Usable(prefix + VARIABLE + suffix)
    ensures Generate(prefix + VARIABLE + suffix, id) == prefix + Decimal(id) + WithoutArgument(suffix)
  {
    var s := prefix + VARIABLE + suffix;
    VariableInside(prefix, suffix);
    if prefix == "" {
      assert s[..3] == VARIABLE && s[3..] == suffix;
    } else {
      NotAtStart(prefix, suffix);
      var t := prefix[1..] + VARIABLE + suffix;
      assert s[1..] == t && s[0] == prefix[0];
      VariableInside(prefix[1..], suffix);
      GenerateFirst(prefix[1..], suffix, id);
      PutBack(prefix, Decimal(id), WithoutArgument(suffix));
    }
  }

  lemma PutBack(prefix: string, middle: string, rest: string)
    requires prefix != ""
    ensures [prefix[0]] + (prefix[1..] + middle + rest) == prefix + middle + rest
  {}

  /** One character that does not start a variable. */
  lemma CopiedOn(s: string, t: string)
    requires |s| >= 3 && s[..3] != VARIABLE && t == s[1..]
    ensures WithoutArgument(s) == [s[0]] + WithoutArgument(t)
  {}

  lemma ReplacedOn(s: string, t: string)
    requires |s| >= 3 && s[..3] == VARIABLE && t == s[3..]
    ensures WithoutArgument(s) == MISSING + WithoutArgument(t)
  {}

  /** And so on: each variable behind the first is replaced, the text around it is kept. */
  lemma {:induction false} LaterVariables(prefix: string, suffix: string)
    requires !HasVariable(prefix)
    ensures WithoutArgument(prefix + VARIABLE + suffix) == prefix + MISSING + WithoutArgument(suffix)
  {
    var s := prefix + VARIABLE + suffix;
    if prefix == "" {
      ReplacedOn(s, suffix);
    } else {
      NotAtStart(prefix, suffix);
      CopiedOn(s, prefix[1..] + VARIABLE + suffix);
      LaterVariables(prefix[1..], suffix);
      PutBack(prefix, MISSING, WithoutArgument(suffix));
    }
  }

  /** A template with exactly one variable gives the prefix, the index in decimal, and the suffix. */
  lemma GenerateOne(prefix: string, suffix: string, id: nat)
    requires !HasVariable(prefix) && !HasVariable(suffix)
    requires Usable(prefix + VARIABLE + suffix)
    ensures Generate(prefix + VARIABLE + suffix, id) == prefix + Decimal(id) + suffix
  {
    GenerateFirst(prefix, suffix, id);
    WithoutArgumentCopies(suffix);
  }

  /** Different clients get different strings exactly when the template mentions the variable. */
  lemma {:induction false} GenerateInjective(s: string, i: nat, j: nat)
    requires Usable(s) && i != j
    ensures Generate(s, i) != Generate(s, j) <==> HasVariable(s)
  {
    if |s| >= 3 {
      if s[..3] == VARIABLE {
        NumberOfDecimal(i);
        NumberOfDecimal(j);
        SameTail(Decimal(i), Decimal(j), WithoutArgument(s[3..]));
      } else if HasVariable(s[1..]) {
        GenerateInjective(s[1..], i, j);
        assert Generate(s, i)[1..] == Generate(s[1..], i);
        assert Generate(s, j)[1..] == Generate(s[1..], j);
      }
    }
  }

  lemma SameTail(a: string, b: string, tail: string)
    requires a != b
    ensures a + tail != b + tail
  {
    if |a| == |b| {
      var k :| 0 <= k < |a| && a[k] != b[k];
      assert (a + tail)[k] != (b + tail)[k];
    }
  }
}

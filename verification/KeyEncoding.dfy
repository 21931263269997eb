/** The text form of step keys, `0.2.1:name`, and the string tests the store runs on it. */
module KeyEncoding {

  function Digit(n: nat): char
    requires n < 10
  {
    '0' + n as char
  }

  predicate IsDigit(c: char) {
    '0' <= c <= '9'
  }

  /** Decimal text of a number. */
  function Decimal(n: nat): (s: string)
    ensures |s| > 0 && forall i | 0 <= i < |s| :: IsDigit(s[i])
  {
    if n < 10 then [Digit(n)] else Decimal(n / 10) + [Digit(n % 10)]
  }

  function ParseDecimal(s: string): int {
    if s == [] then 0 else 10 * ParseDecimal(s[..|s| - 1]) + (s[|s| - 1] as int - '0' as int)
  }

  lemma {:induction false} ParseDecimalInverts(n: nat)
    ensures ParseDecimal(Decimal(n)) == n
  {
    if n < 10 {
      assert Decimal(n)[..0] == [];
    } else {
      var s := Decimal(n);
      assert s[..|s| - 1] == Decimal(n / 10);
      ParseDecimalInverts(n / 10);
    }
  }

  /** `path.join('.')` */
  function Join(path: seq<nat>): (s: string)
    ensures s == [] <==> path == []
  {
    if path == [] then ""
    else if |path| == 1 then Decimal(path[0])
    else Decimal(path[0]) + "." + Join(path[1..])
  }

  function ToStepKey(path: seq<nat>, stepName: string): string {
    Join(path) + ":" + stepName
  }

  function ToPathPrefix(path: seq<nat>): string {
    Join(path) + "."
  }

  /** The text of a step's key: the numbers of its path, each but the first after a dot, a colon, and its name. */
  lemma {:induction false} StepKeyText(path: seq<nat>, child: nat, stepName: string)
    ensures ToStepKey(path + [child], stepName)
         == (if path == [] then "" else Join(path) + ".") + Decimal(child) + ":" + stepName
  {
    JoinSnoc(path, child);
  }

  lemma {:induction false} JoinSnoc(path: seq<nat>, child: nat)
    ensures Join(path + [child]) == (if path == [] then "" else Join(path) + ".") + Decimal(child)
  {
    if path != [] {
      assert (path + [child])[1..] == path[1..] + [child];
      JoinSnoc(path[1..], child);
    }
  }

  /** `s.indexOf(c)`, as the length of the text when there is no occurrence. */
  function IndexOf(s: string, c: char): (n: nat)
    ensures n <= |s| && c !in s[..n] && (n < |s| ==> s[n] == c)
  {
    if s == [] || s[0] == c then 0
    else
      var n := 1 + IndexOf(s[1..], c);
      assert s[..n] == [s[0]] + s[1..][..n - 1];
      n
  }

  function ExtractStepPath(stepKey: string): string {
    stepKey[..IndexOf(stepKey, ':')]
  }

  function CountDots(s: string): nat {
    if s == [] then 0 else (if s[0] == '.' then 1 else 0) + CountDots(s[1..])
  }

  /** A number's digits end where the next character is not a digit. */
  predicate EndsNumber(rest: string) {
    rest == [] || !IsDigit(rest[0])
  }

  lemma {:induction false} DecimalIsSelfDelimiting(m: nat, rest: string, n: nat, rest': string)
    requires EndsNumber(rest) && EndsNumber(rest')
    requires Decimal(m) + rest == Decimal(n) + rest'
    ensures m == n && rest == rest'
  {
    var a, b, s := Decimal(m), Decimal(n), Decimal(m) + rest;
    assert s[|a|..] == rest && s[|b|..] == rest';
    assert |a| == |b|;
    assert a == s[..|a|] == b;
    assert rest == s[|a|..] == rest';
    ParseDecimalInverts(m);
    ParseDecimalInverts(n);
  }

  /** What follows the first number of a joined path. */
  function AfterFirst(path: seq<nat>): (rest: string)
    requires path != []
    ensures Join(path) == Decimal(path[0]) + rest && EndsNumber(rest)
    ensures rest == [] <==> |path| == 1
  {
    if |path| == 1 then "" else "." + Join(path[1..])
  }

  lemma {:induction false} JoinIsInjective(p: seq<nat>, q: seq<nat>)
    requires Join(p) == Join(q)
    ensures p == q
  {
    if p != [] && q != [] {
      DecimalIsSelfDelimiting(p[0], AfterFirst(p), q[0], AfterFirst(q));
      if |p| > 1 {
        assert Join(p[1..]) == AfterFirst(p)[1..] == AfterFirst(q)[1..] == Join(q[1..]);
        JoinIsInjective(p[1..], q[1..]);
        assert p == [p[0]] + p[1..] && q == [q[0]] + q[1..];
      }
    }
  }

  /**
   * "Starts with `path.`" on texts is "proper descendant" on paths, so `1.` never captures `10.0`.
   * The root frame, whose prefix is a lone dot, owns no key and is never tested.
   */
  lemma {:induction false} PrefixTestIsDescendantTest(p: seq<nat>, q: seq<nat>)
    requires p != []
    ensures ToPathPrefix(p) <= Join(q) <==> p < q
  {
    if q == [] {
    } else if p[0] != q[0] {
      DifferentFirstNumber(p, q);
    } else if |q| == 1 {
      SingleNumberHasNoDescendantPrefix(p, q);
    } else if |p| == 1 {
      assert Join(q) == ToPathPrefix(p) + Join(q[1..]);
    } else {
      PrefixTestIsDescendantTest(p[1..], q[1..]);
      var head := Decimal(p[0]) + ".";
      assert ToPathPrefix(p) == head + ToPathPrefix(p[1..]);
      assert Join(q) == head + Join(q[1..]);
      SharedHead(head, ToPathPrefix(p[1..]), Join(q[1..]));
      SharedHead([p[0]], p[1..], q[1..]);
      assert p == [p[0]] + p[1..] && q == [p[0]] + q[1..];
    }
  }

  /** A common head does not matter to a prefix test. */
  lemma SharedHead<T>(head: seq<T>, a: seq<T>, b: seq<T>)
    ensures head + a <= head + b <==> a <= b
    ensures head + a < head + b <==> a < b
  {
    if head + a <= head + b {
      assert (head + a)[|head|..] == a && (head + b)[|head|..] == b;
    }
  }

  lemma DifferentFirstNumber(p: seq<nat>, q: seq<nat>)
    requires p != [] && q != [] && p[0] != q[0]
    ensures !(ToPathPrefix(p) <= Join(q))
  {
    var tail := AfterFirst(p) + ".";
    assert ToPathPrefix(p) == Decimal(p[0]) + tail;
    if ToPathPrefix(p) <= Join(q) {
      var rest := Join(q)[|Decimal(p[0])|..];
      HeadOfPrefix(Decimal(p[0]), tail, Join(q));
      DecimalIsSelfDelimiting(p[0], rest, q[0], AfterFirst(q));
    }
  }

  lemma HeadOfPrefix(head: string, tail: string, s: string)
    requires head + tail <= s && tail != []
    ensures s == head + s[|head|..] && s[|head|..] != [] && s[|head|..][0] == tail[0]
  {
    assert s[..|head|] == (head + tail)[..|head|] == head;
    assert s[|head|] == (head + tail)[|head|];
  }

  lemma SingleNumberHasNoDescendantPrefix(p: seq<nat>, q: seq<nat>)
    requires p != [] && |q| == 1 && p[0] == q[0]
    ensures !(ToPathPrefix(p) <= Join(q))
  {
    assert ToPathPrefix(p) == Decimal(p[0]) + (AfterFirst(p) + ".");
  }

  lemma {:induction false} JoinHasNoColon(path: seq<nat>)
    ensures ':' !in Join(path)
  {
    if |path| > 1 {
      JoinHasNoColon(path[1..]);
    }
  }

  /** The first colon ends the path whatever the step is called. */
  lemma {:induction false} ExtractStepPathRecoversPath(path: seq<nat>, stepName: string)
    ensures ExtractStepPath(ToStepKey(path, stepName)) == Join(path)
  {
    JoinHasNoColon(path);
    var key, n := ToStepKey(path, stepName), IndexOf(ToStepKey(path, stepName), ':');
    assert key[|Join(path)|] == ':';
    assert n >= |Join(path)| by {
      assert key[..|Join(path)|] == Join(path);
    }
    assert n == |Join(path)|;
  }

  /** The test by which the store and the cursor find the descendants of a step, on whole keys. */
  lemma DescendantKeysAreFound(p: seq<nat>, q: seq<nat>, stepName: string)
    requires p != []
    ensures ToPathPrefix(p) <= ExtractStepPath(ToStepKey(q, stepName)) <==> p < q
  {
    ExtractStepPathRecoversPath(q, stepName);
    PrefixTestIsDescendantTest(p, q);
  }

  /** Two steps share a key only if they are the same step, even with ':' or '.' in their names. */
  lemma {:induction false} ToStepKeyIsInjective(p: seq<nat>, name: string, q: seq<nat>, name': string)
    requires ToStepKey(p, name) == ToStepKey(q, name')
    ensures p == q && name == name'
  {
    ExtractStepPathRecoversPath(p, name);
    ExtractStepPathRecoversPath(q, name');
    JoinIsInjective(p, q);
    assert name == ToStepKey(p, name)[|Join(p)| + 1..];
    assert name' == ToStepKey(q, name')[|Join(q)| + 1..];
  }

  /** `split('.').length`, the depth that compaction sorts by, is the length of the path. */
  lemma {:induction false} DotsCountDepth(path: seq<nat>)
    requires path != []
    ensures CountDots(Join(path)) + 1 == |path|
  {
    if |path| == 1 {
      NumbersHaveNoDots(path[0], "");
      assert Decimal(path[0]) + "" == Join(path);
    } else {
      DotsCountDepth(path[1..]);
      NumbersHaveNoDots(path[0], "." + Join(path[1..]));
      assert ("." + Join(path[1..]))[1..] == Join(path[1..]);
      assert Join(path) == Decimal(path[0]) + ("." + Join(path[1..]));
    }
  }

  lemma NumbersHaveNoDots(n: nat, rest: string)
    ensures CountDots(Decimal(n) + rest) == CountDots(rest)
  {
    DigitsHaveNoDots(Decimal(n), rest);
  }

  lemma {:induction false} DigitsHaveNoDots(digits: string, rest: string)
    requires forall i | 0 <= i < |digits| :: IsDigit(digits[i])
    ensures CountDots(digits + rest) == CountDots(rest)
  {
    if digits == [] {
      assert digits + rest == rest;
    } else {
      DigitsHaveNoDots(digits[1..], rest);
      assert (digits + rest)[1..] == digits[1..] + rest;
    }
  }
}

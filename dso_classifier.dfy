/** The profiler-module classifier (`replace_dso_names` inside
    `get_perf_report`): a module name reported by the profiler is first
    normalised, then mapped to a component category by an ordered chain of
    rules where the first rule that matches decides, and a name no rule
    matches is kept (normalised) as its own category. */
module DsoClassifier {
  import opened Text

  // ---------------------------------------------------------------------
  // Normalisation, one function per step, in the order the script applies
  // them.
  // ---------------------------------------------------------------------

  /** Step 1, `re.sub(r"\.so(\..*)?", "", s)`: every `.so` is removed, and
      when a `.` follows it, that `.` and the rest of its line go too. The
      scan resumes after each removed match. */
  function StripSharedObject(s: string): (r: string)
    ensures |r| <= |s|
    decreases |s|
  {
    if StartsWith(s, ".so") then
      if |s| > 3 && s[3] == '.' then StripSharedObject(s[3 + |LineRest(s[3..])|..])
      else StripSharedObject(s[3..])
    else if s == [] then []
    else [s[0]] + StripSharedObject(s[1..])
  }

  /** Step 2, `re.sub(r"-.*", "", s)`: every `-` is removed together with
      the rest of its line; on a one-line name this truncates at the first
      `-`. */
  function CutAtDash(s: string): (r: string)
    ensures '-' !in r
    ensures |r| <= |s|
    decreases |s|
  {
    if s == [] then []
    else if s[0] == '-' then CutAtDash(s[1 + |LineRest(s[1..])|..])
    else [s[0]] + CutAtDash(s[1..])
  }

  /** Steps 3 and 4, `.replace("[", "")` and `.replace("]", "")`: delete
      every occurrence of one character and keep every other character. */
  function RemoveAll(s: string, c: char): (r: string)
    ensures c !in r
    ensures forall d | d != c :: multiset(r)[d] == multiset(s)[d]
  {
    if s == [] then []
    else
      assert s == [s[0]] + s[1..];
      if s[0] == c then RemoveAll(s[1..], c)
      else [s[0]] + RemoveAll(s[1..], c)
  }

  /** Removal works piece by piece, so the kept characters stay in their
      order: with `RemoveAll([x], c)` being `[]` or `[x]`, this fixes the
      value on every string. */
  lemma {:induction false} RemoveAllAppend(a: string, b: string, c: char)
    ensures RemoveAll(a + b, c) == RemoveAll(a, c) + RemoveAll(b, c)
  {
    if a == [] {
      assert a + b == b;
    } else {
      assert (a + b)[0] == a[0];
      assert (a + b)[1..] == a[1..] + b;
      RemoveAllAppend(a[1..], b, c);
    }
  }

  predicate IsUpper(c: char)
  {
    'A' <= c <= 'Z'
  }

  function LowerChar(c: char): (r: char)
    ensures !IsUpper(r)
    ensures IsUpper(c) ==> r as int == c as int + 32
    ensures !IsUpper(c) ==> r == c
  {
    if IsUpper(c) then (c as int + 32) as char else c
  }

  /** Step 5, `.lower()`, on the ASCII letters. */
  function ToLower(s: string): (r: string)
    ensures |r| == |s|
    ensures forall i | 0 <= i < |r| :: r[i] == LowerChar(s[i])
  {
    if s == [] then [] else [LowerChar(s[0])] + ToLower(s[1..])
  }

  /** No upper-case letter, no bracket and no dash. */
  predicate Clean(s: string)
  {
    && (forall i | 0 <= i < |s| :: !IsUpper(s[i]))
    && '[' !in s && ']' !in s && '-' !in s
  }

  /** The normalised module name the rules look at. */
  function Normalize(dso: string): (r: string)
    ensures Clean(r)
  {
    var cut := CutAtDash(StripSharedObject(dso));
    var open := RemoveAll(cut, '[');
    var closed := RemoveAll(open, ']');
    assert '-' !in closed by {
      assert multiset(cut)['-'] == 0;
    }
    assert '[' !in closed by {
      assert multiset(open)['['] == 0;
    }
    var r := ToLower(closed);
    assert forall i | 0 <= i < |r| :: r[i] != '[' && r[i] != ']' && r[i] != '-' by {
      forall i | 0 <= i < |r| ensures r[i] != '[' && r[i] != ']' && r[i] != '-' {
        assert r[i] == LowerChar(closed[i]);
        assert closed[i] in closed;
      }
    }
    r
  }

  // ---------------------------------------------------------------------
  // The rule chain.
  // ---------------------------------------------------------------------

  /** The categories a rule can assign. */
  const Categories: set<string> :=
    {"etiss_arch", "boost", "etiss", "gcc", "etiss_jitcode", "llvm", "tcc", "dso", "sh", "libs"}

  /** The chain of tests applied to a normalised name, in the script's
      order; the identity is the fallback. */
  function Categorize(n: string): (r: string)
    ensures r in Categories || r == n
  {
    if StartsWith(n, "librv") then "etiss_arch"
    else if StartsWith(n, "libboost") then "boost"
    else if StartsWith(n, "libsemihost") then "etiss"
    else if StartsWith(n, "x86_64") then "gcc"
    else if StartsWith(n, "libcode_") then "etiss_jitcode"
    else if Contains(n, "llvm") then "llvm"
    else if Contains(n, "tcc") then "tcc"
    else if Contains(n, "gcc") then "gcc"
    else if Contains(n, "etiss") then "etiss"
    else if Contains(n, "dso") then "dso"
    else if n in ["cc1", "collect2", "ld"] then "gcc"
    else if n in ["bash", "rm"] then "sh"
    else if StartsWith(n, "lib") then "libs"
    else n
  }

  /** `replace_dso_names`: total and deterministic; its result holds no
      upper-case letter, no bracket and no dash. */
  function ReplaceDsoName(dso: string): (r: string)
    ensures Clean(r)
  {
    var r := Categorize(Normalize(dso));
    CategoriesAreClean();
    r
  }

  /** The result of `replace_dso_names` is one of the fixed categories or
      the normalised name. */
  lemma CategoryOrName(dso: string)
    ensures ReplaceDsoName(dso) in Categories || ReplaceDsoName(dso) == Normalize(dso)
  {
    ReplaceIsCategorizeOfNormalize(dso);
  }

  lemma ReplaceIsCategorizeOfNormalize(dso: string)
    ensures ReplaceDsoName(dso) == Categorize(Normalize(dso))
  {
  }

  lemma CategoriesAreClean()
    ensures forall c | c in Categories :: Clean(c)
  {
    ToolCategoriesAreClean();
    OtherCategoriesAreClean();
  }

  lemma ToolCategoriesAreClean()
    ensures Clean("boost") && Clean("gcc") && Clean("llvm") && Clean("tcc") && Clean("sh")
  {
  }

  lemma OtherCategoriesAreClean()
    ensures Clean("etiss_arch") && Clean("etiss") && Clean("etiss_jitcode") && Clean("dso") && Clean("libs")
  {
  }

  // ---------------------------------------------------------------------
  // The same chain as data: an ordered table of (test, category) rows,
  // evaluated first-match-wins.
  // ---------------------------------------------------------------------

  datatype Test = Prefix(p: string) | Infix(t: string) | OneOf(names: seq<string>)

  datatype Rule = Rule(test: Test, category: string)

  predicate Holds(t: Test, n: string)
  {
    match t
    case Prefix(p) => StartsWith(n, p)
    case Infix(x) => Contains(n, x)
    case OneOf(names) => n in names
  }

  const Rules: seq<Rule> := [
    Rule(Prefix("librv"), "etiss_arch"),
    Rule(Prefix("libboost"), "boost"),
    Rule(Prefix("libsemihost"), "etiss"),
    Rule(Prefix("x86_64"), "gcc"),
    Rule(Prefix("libcode_"), "etiss_jitcode"),
    Rule(Infix("llvm"), "llvm"),
    Rule(Infix("tcc"), "tcc"),
    Rule(Infix("gcc"), "gcc"),
    Rule(Infix("etiss"), "etiss"),
    Rule(Infix("dso"), "dso"),
    Rule(OneOf(["cc1", "collect2", "ld"]), "gcc"),
    Rule(OneOf(["bash", "rm"]), "sh"),
    Rule(Prefix("lib"), "libs")
  ]

  /** Evaluate a rule table: the category of the first rule that holds, or
      the name itself when none does. */
  function FirstMatch(rules: seq<Rule>, n: string): string
  {
    if rules == [] then n
    else if Holds(rules[0].test, n) then rules[0].category
    else FirstMatch(rules[1..], n)
  }

  /** First match wins: the rule at index k decides when it holds and no
      earlier rule does, whatever later rules say. */
  lemma {:induction false} FirstMatchWins(rules: seq<Rule>, n: string, k: nat)
    requires k < |rules| && Holds(rules[k].test, n)
    requires forall j | 0 <= j < k :: !Holds(rules[j].test, n)
    ensures FirstMatch(rules, n) == rules[k].category
  {
    if k > 0 {
      assert !Holds(rules[0].test, n);
      FirstMatchWins(rules[1..], n, k - 1);
    }
  }

  /** When no rule holds the name is its own category. */
  lemma {:induction false} NoMatchKeepsName(rules: seq<Rule>, n: string)
    requires forall j | 0 <= j < |rules| :: !Holds(rules[j].test, n)
    ensures FirstMatch(rules, n) == n
  {
    if rules != [] {
      assert !Holds(rules[0].test, n);
      NoMatchKeepsName(rules[1..], n);
    }
  }

  /** The if-chain and the rule table classify every name alike; the case
      analysis walks down the chain one rule at a time. */
  lemma CategorizeIsRuleTable(n: string)
    ensures Categorize(n) == FirstMatch(Rules, n)
  {
    assert Rules[0..] == Rules;
    RuleStep0(n);
    if !(StartsWith(n, "librv")) {
      RuleStep1(n);
      if !(StartsWith(n, "libboost")) {
        RuleStep2(n);
        if !(StartsWith(n, "libsemihost")) {
          RuleStep3(n);
          if !(StartsWith(n, "x86_64")) {
            RuleStep4(n);
            if !(StartsWith(n, "libcode_")) {
              InfixRulesAreRuleTable(n);
            }
          }
        }
      }
    }
  }

  /** The rules after the five prefix rules. */
  lemma InfixRulesAreRuleTable(n: string)
    requires !StartsWith(n, "librv") && !StartsWith(n, "libboost") && !StartsWith(n, "libsemihost")
    requires !StartsWith(n, "x86_64") && !StartsWith(n, "libcode_")
    ensures Categorize(n) == FirstMatch(Rules[5..], n)
  {
    RuleStep5(n);
    if !(Contains(n, "llvm")) {
      RuleStep6(n);
      if !(Contains(n, "tcc")) {
        RuleStep7(n);
        if !(Contains(n, "gcc")) {
          RuleStep8(n);
          if !(Contains(n, "etiss")) {
            RuleStep9(n);
            if !(Contains(n, "dso")) {
              RuleStep10(n);
              if !(n in ["cc1", "collect2", "ld"]) {
                RuleStep11(n);
                if !(n in ["bash", "rm"]) {
                  RuleStep12(n);
                  if !(StartsWith(n, "lib")) {
                    assert Rules[13..] == [];
                  }
                }
              }
            }
          }
        }
      }
    }
  }

  lemma RuleStep0(n: string)
    ensures FirstMatch(Rules[0..], n) == if StartsWith(n, "librv") then "etiss_arch" else FirstMatch(Rules[1..], n)
  {
    FirstMatchStep(Rules, 0, n);
  }

  lemma RuleStep1(n: string)
    ensures FirstMatch(Rules[1..], n) == if StartsWith(n, "libboost") then "boost" else FirstMatch(Rules[2..], n)
  {
    FirstMatchStep(Rules, 1, n);
  }

  lemma RuleStep2(n: string)
    ensures FirstMatch(Rules[2..], n) == if StartsWith(n, "libsemihost") then "etiss" else FirstMatch(Rules[3..], n)
  {
    FirstMatchStep(Rules, 2, n);
  }

  lemma RuleStep3(n: string)
    ensures FirstMatch(Rules[3..], n) == if StartsWith(n, "x86_64") then "gcc" else FirstMatch(Rules[4..], n)
  {
    FirstMatchStep(Rules, 3, n);
  }

  lemma RuleStep4(n: string)
    ensures FirstMatch(Rules[4..], n) == if StartsWith(n, "libcode_") then "etiss_jitcode" else FirstMatch(Rules[5..], n)
  {
    FirstMatchStep(Rules, 4, n);
  }

  lemma RuleStep5(n: string)
    ensures FirstMatch(Rules[5..], n) == if Contains(n, "llvm") then "llvm" else FirstMatch(Rules[6..], n)
  {
    FirstMatchStep(Rules, 5, n);
  }

  lemma RuleStep6(n: string)
    ensures FirstMatch(Rules[6..], n) == if Contains(n, "tcc") then "tcc" else FirstMatch(Rules[7..], n)
  {
    FirstMatchStep(Rules, 6, n);
  }

  lemma RuleStep7(n: string)
    ensures FirstMatch(Rules[7..], n) == if Contains(n, "gcc") then "gcc" else FirstMatch(Rules[8..], n)
  {
    FirstMatchStep(Rules, 7, n);
  }

  lemma RuleStep8(n: string)
    ensures FirstMatch(Rules[8..], n) == if Contains(n, "etiss") then "etiss" else FirstMatch(Rules[9..], n)
  {
    FirstMatchStep(Rules, 8, n);
  }

  lemma RuleStep9(n: string)
    ensures FirstMatch(Rules[9..], n) == if Contains(n, "dso") then "dso" else FirstMatch(Rules[10..], n)
  {
    FirstMatchStep(Rules, 9, n);
  }

  lemma RuleStep10(n: string)
    ensures FirstMatch(Rules[10..], n) == if n in ["cc1", "collect2", "ld"] then "gcc" else FirstMatch(Rules[11..], n)
  {
    FirstMatchStep(Rules, 10, n);
  }

  lemma RuleStep11(n: string)
    ensures FirstMatch(Rules[11..], n) == if n in ["bash", "rm"] then "sh" else FirstMatch(Rules[12..], n)
  {
    FirstMatchStep(Rules, 11, n);
  }

  lemma RuleStep12(n: string)
    ensures FirstMatch(Rules[12..], n) == if StartsWith(n, "lib") then "libs" else FirstMatch(Rules[13..], n)
  {
    FirstMatchStep(Rules, 12, n);
  }

  lemma FirstMatchStep(rules: seq<Rule>, k: nat, n: string)
    requires k < |rules|
    ensures FirstMatch(rules[k..], n)
         == if Holds(rules[k].test, n) then rules[k].category else FirstMatch(rules[k + 1..], n)
  {
    assert rules[k..][1..] == rules[k + 1..];
  }

  // ---------------------------------------------------------------------
  // Normalisation facts.
  // ---------------------------------------------------------------------

  /** Characters no normalisation step touches. */
  predicate Plain(p: string)
  {
    && '.' !in p && '-' !in p && '[' !in p && ']' !in p
    && forall i | 0 <= i < |p| :: !IsUpper(p[i])
  }

  lemma {:induction false} StripKeepsPrefix(s: string, p: string)
    requires StartsWith(s, p) && '.' !in p
    ensures StartsWith(StripSharedObject(s), p)
  {
    if p != [] {
      assert s[0] == p[0];
      assert !StartsWith(s, ".so");
      StripKeepsPrefix(s[1..], p[1..]);
    }
  }

  lemma {:induction false} CutKeepsPrefix(s: string, p: string)
    requires StartsWith(s, p) && '-' !in p
    ensures StartsWith(CutAtDash(s), p)
  {
    if p != [] {
      assert s[0] == p[0];
      CutKeepsPrefix(s[1..], p[1..]);
    }
  }

  lemma {:induction false} RemoveKeepsPrefix(s: string, c: char, p: string)
    requires StartsWith(s, p) && c !in p
    ensures StartsWith(RemoveAll(s, c), p)
  {
    if p != [] {
      assert s[0] == p[0];
      RemoveKeepsPrefix(s[1..], c, p[1..]);
    }
  }

  lemma LowerKeepsPrefix(s: string, p: string)
    requires StartsWith(s, p)
    requires forall i | 0 <= i < |p| :: !IsUpper(p[i])
    ensures StartsWith(ToLower(s), p)
  {
    var r := ToLower(s);
    forall i | 0 <= i < |p| ensures r[i] == p[i] {
      assert s[i] == p[i];
    }
  }

  /** A raw name that starts with a plain prefix still starts with it once
      normalised. */
  lemma NormalizeKeepsPlainPrefix(dso: string, p: string)
    requires StartsWith(dso, p) && Plain(p)
    ensures StartsWith(Normalize(dso), p)
  {
    StripKeepsPrefix(dso, p);
    var a := StripSharedObject(dso);
    CutKeepsPrefix(a, p);
    var b := CutAtDash(a);
    RemoveKeepsPrefix(b, '[', p);
    var c := RemoveAll(b, '[');
    RemoveKeepsPrefix(c, ']', p);
    LowerKeepsPrefix(RemoveAll(c, ']'), p);
  }

  /** An occurrence in the tail of a string is one in the string. */
  lemma OccursInTail(s: string, t: string, i: nat)
    requires s != [] && OccursAt(s[1..], t, i)
    ensures OccursAt(s, t, i + 1)
  {
    forall k | 0 <= k < |t| ensures s[i + 1 + k] == t[k] {
      assert s[1..][i + k] == t[k];
    }
  }

  /** What step 1 scans next after removing a `.so`: when a `.` follows,
      the group `(\..*)` also takes that `.` and the rest of its line. */
  function AfterSharedObject(rest: string): (r: string)
    ensures |r| <= |rest|
    ensures rest != [] && rest[0] == '.' ==> rest == LineRest(rest) + r
    ensures !(rest != [] && rest[0] == '.') ==> r == rest
  {
    if rest != [] && rest[0] == '.' then rest[|LineRest(rest)|..] else rest
  }

  /** A name that starts with `.so` loses it and its optional group. */
  lemma StripOfMatch(rest: string)
    ensures StripSharedObject(".so" + rest) == StripSharedObject(AfterSharedObject(rest))
  {
    var s := ".so" + rest;
    assert StartsWith(s, ".so");
    assert s[3..] == rest;
  }

  /** A character that does not start a `.so` is kept. */
  lemma StripKeepsHead(s: string)
    requires s != [] && !StartsWith(s, ".so")
    ensures StripSharedObject(s) == [s[0]] + StripSharedObject(s[1..])
  {
  }

  /** Leftmost match: the text before the first `.so` is kept as it is, the
      `.so` and its optional group go, and the scan resumes after them.
      With `StripWithoutSharedObject` this fixes step 1 on every name. */
  lemma {:induction false} StripAtFirstMatch(a: string, rest: string)
    requires !Contains(a, ".so")
    ensures StripSharedObject(a + ".so" + rest) == a + StripSharedObject(AfterSharedObject(rest))
  {
    var s := a + ".so" + rest;
    if a == [] {
      assert s == ".so" + rest;
      StripOfMatch(rest);
    } else {
      NoMatchAtStart(a, rest);
      StripKeepsHead(s);
      assert s[0] == a[0];
      assert s[1..] == a[1..] + ".so" + rest;
      NoSharedObjectInTail(a);
      StripAtFirstMatch(a[1..], rest);
      assert a == [a[0]] + a[1..];
    }
  }

  /** A name whose first `.so` comes later does not start with one. */
  lemma NoMatchAtStart(a: string, rest: string)
    requires a != [] && !Contains(a, ".so")
    ensures !StartsWith(a + ".so" + rest, ".so")
  {
    var s := a + ".so" + rest;
    if |a| < 3 {
      assert s[|a|] == '.';
    } else {
      assert !OccursAt(a, ".so", 0);
      assert s[..3] == a[..3];
    }
  }

  lemma NoSharedObjectInTail(a: string)
    requires a != [] && !Contains(a, ".so")
    ensures !Contains(a[1..], ".so")
  {
    forall i | 0 <= i <= |a[1..]| - 3
      ensures !OccursAt(a[1..], ".so", i)
    {
      if OccursAt(a[1..], ".so", i) {
        OccursInTail(a, ".so", i);
      }
    }
  }

  /** `.so` and a dotted version after it are stripped from a library file
      name: `base.so` and `base.so.1.2` both become `base`, for every base
      that holds no `.so` of its own (dots in the base, as in
      `libpython3.10.so.1.0` or `ld-2.31.so`, are kept). */
  lemma StripVersionedLibrary(base: string, version: string)
    requires !Contains(base, ".so")
    requires version == [] || (version[0] == '.' && '\n' !in version)
    ensures StripSharedObject(base + ".so" + version) == base
  {
    StripAtFirstMatch(base, version);
    if version != [] {
      LineRestOfAppend(version, []);
      assert version + [] == version;
    }
    assert AfterSharedObject(version) == [];
  }

  /** Dotted base names keep their dots: `libpython3.10.so.1.0` and
      `ld-2.31.so` lose only the shared-object suffix. */
  lemma DottedLibraryStripped(dso: string)
    requires dso == "libpython3.10.so.1.0"
    ensures StripSharedObject(dso) == "libpython3.10"
  {
    var base := "libpython3.10";
    assert dso == base + ".so" + ".1.0";
    MissingCharMeansAbsent(base, ".so", 's');
    StripVersionedLibrary(base, ".1.0");
  }

  lemma DynamicLoaderNormalized(dso: string)
    requires dso == "ld-2.31.so"
    ensures StripSharedObject(dso) == "ld-2.31"
    ensures Normalize(dso) == "ld"
  {
    var base := "ld-2.31";
    assert dso == base + ".so" + [];
    MissingCharMeansAbsent(base, ".so", 's');
    StripVersionedLibrary(base, []);
    assert base == "ld" + "-" + "2.31";
    CutAtFirstDash("ld", "2.31");
    RemoveAbsent("ld", '[');
    RemoveAbsent("ld", ']');
    LowerOfLower("ld");
    NormalizeSteps(dso);
  }

  /** On a one-line name, everything from the first dash on is cut. */
  lemma {:induction false} CutAtFirstDash(a: string, b: string)
    requires '-' !in a && '\n' !in b
    ensures CutAtDash(a + "-" + b) == a
  {
    var s := a + "-" + b;
    if a == [] {
      assert s == "-" + b && s[1..] == b;
      LineRestOfAppend(b, []);
      assert b + [] == b;
      assert s[1 + |LineRest(s[1..])|..] == [];
    } else {
      assert s[0] == a[0];
      assert s[1..] == a[1..] + "-" + b;
      CutAtFirstDash(a[1..], b);
    }
  }

  lemma {:induction false} CutWithoutDash(a: string)
    requires '-' !in a
    ensures CutAtDash(a) == a
  {
    if a != [] {
      CutWithoutDash(a[1..]);
    }
  }

  lemma {:induction false} RemoveAbsent(a: string, c: char)
    requires c !in a
    ensures RemoveAll(a, c) == a
  {
    if a != [] {
      RemoveAbsent(a[1..], c);
    }
  }

  lemma LowerOfLower(a: string)
    requires forall i | 0 <= i < |a| :: !IsUpper(a[i])
    ensures ToLower(a) == a
  {
  }

  /** A library name with its `.so` suffix (and optional dotted version)
      normalises to the bare name, whenever the bare name is one that no
      step changes: no `.so`, dash, bracket or capital of its own. */
  lemma NormalizeLibraryFile(base: string, version: string)
    requires !Contains(base, ".so") && '-' !in base && '[' !in base && ']' !in base
    requires forall i | 0 <= i < |base| :: !IsUpper(base[i])
    requires version == [] || (version[0] == '.' && '\n' !in version)
    ensures Normalize(base + ".so" + version) == base
  {
    StripVersionedLibrary(base, version);
    CutWithoutDash(base);
    RemoveAbsent(base, '[');
    RemoveAbsent(base, ']');
    LowerOfLower(base);
  }

  // ---------------------------------------------------------------------
  // Rule order.
  // ---------------------------------------------------------------------

  /** First match wins, stated on raw names: when rule k is the first rule
      of the table that holds for the normalised name, its category is the
      result. */
  lemma FirstHoldingRuleDecides(dso: string, k: nat)
    requires k < |Rules| && Holds(Rules[k].test, Normalize(dso))
    requires forall j | 0 <= j < k :: !Holds(Rules[j].test, Normalize(dso))
    ensures ReplaceDsoName(dso) == Rules[k].category
  {
    CategorizeIsRuleTable(Normalize(dso));
    FirstMatchWins(Rules, Normalize(dso), k);
  }

  /** Identity fallback: a name no rule matches is its own (normalised)
      category. */
  lemma UnmatchedNameIsKept(dso: string)
    requires forall j | 0 <= j < |Rules| :: !Holds(Rules[j].test, Normalize(dso))
    ensures ReplaceDsoName(dso) == Normalize(dso)
  {
    CategorizeIsRuleTable(Normalize(dso));
    NoMatchKeepsName(Rules, Normalize(dso));
  }

  lemma PrefixesDiffer(n: string, p: string, q: string, i: nat)
    requires StartsWith(n, p) && i < |p| && i < |q| && p[i] != q[i]
    ensures !StartsWith(n, q)
  {
    assert n[i] == p[i];
  }

  /** Each prefix rule decides for every raw name that starts with its
      prefix, ahead of the later `lib` catch-all. */
  lemma ArchLibraryRule(dso: string)
    requires StartsWith(dso, "librv")
    ensures ReplaceDsoName(dso) == "etiss_arch"
  {
    NormalizeKeepsPlainPrefix(dso, "librv");
  }

  /** `libboost...` is `boost`, never `libs`. */
  lemma BoostRule(dso: string)
    requires StartsWith(dso, "libboost")
    ensures ReplaceDsoName(dso) == "boost"
  {
    var n := Normalize(dso);
    NormalizeKeepsPlainPrefix(dso, "libboost");
    PrefixesDiffer(n, "libboost", "librv", 3);
  }

  lemma SemihostRule(dso: string)
    requires StartsWith(dso, "libsemihost")
    ensures ReplaceDsoName(dso) == "etiss"
  {
    var n := Normalize(dso);
    NormalizeKeepsPlainPrefix(dso, "libsemihost");
    PrefixesDiffer(n, "libsemihost", "librv", 3);
    PrefixesDiffer(n, "libsemihost", "libboost", 3);
  }

  lemma HostTripleRule(dso: string)
    requires StartsWith(dso, "x86_64")
    ensures ReplaceDsoName(dso) == "gcc"
  {
    var n := Normalize(dso);
    NormalizeKeepsPlainPrefix(dso, "x86_64");
    PrefixesDiffer(n, "x86_64", "librv", 0);
    PrefixesDiffer(n, "x86_64", "libboost", 0);
    PrefixesDiffer(n, "x86_64", "libsemihost", 0);
  }

  /** `libcode_...` is `etiss_jitcode` although it also starts with `lib`. */
  lemma JitCodeRule(dso: string)
    requires StartsWith(dso, "libcode_")
    ensures ReplaceDsoName(dso) == "etiss_jitcode"
  {
    var n := Normalize(dso);
    NormalizeKeepsPlainPrefix(dso, "libcode_");
    PrefixesDiffer(n, "libcode_", "librv", 3);
    PrefixesDiffer(n, "libcode_", "libboost", 3);
    PrefixesDiffer(n, "libcode_", "libsemihost", 3);
    PrefixesDiffer(n, "libcode_", "x86_64", 0);
  }

  /** A JIT backend named in a module outranks both later backends and the
      generic `lib` catch-all: a normalised name that contains `llvm` is
      `llvm` even when it also contains `tcc` or starts with `lib`, unless
      one of the five prefix rules already decided. */
  lemma BackendNameBeatsLaterRules(n: string)
    requires Contains(n, "llvm")
    requires !StartsWith(n, "librv") && !StartsWith(n, "libboost") && !StartsWith(n, "libsemihost")
    requires !StartsWith(n, "x86_64") && !StartsWith(n, "libcode_")
    ensures Categorize(n) == "llvm"
    ensures FirstMatch(Rules, n) == "llvm"
  {
    CategorizeIsRuleTable(n);
  }

  /** A versioned shared library: `libc.so.6` normalises to `libc` and is a
      generic library. */
  lemma SharedLibraryExample(dso: string)
    requires dso == "libc.so.6"
    ensures Normalize(dso) == "libc"
    ensures ReplaceDsoName(dso) == "libs"
  {
    SharedLibraryNormalized(dso);
    ReplaceIsCategorizeOfNormalize(dso);
    LibcIsGenericLibrary();
  }

  lemma LibcIsGenericLibrary()
    ensures Categorize("libc") == "libs"
  {
    var n := "libc";
    PrefixesDiffer(n, "libc", "librv", 3);
    PrefixesDiffer(n, "libc", "libboost", 3);
    PrefixesDiffer(n, "libc", "libsemihost", 3);
    PrefixesDiffer(n, "libc", "x86_64", 0);
    MissingCharMeansAbsent(n, "llvm", 'v');
    MissingCharMeansAbsent(n, "tcc", 't');
    MissingCharMeansAbsent(n, "gcc", 'g');
    MissingCharMeansAbsent(n, "etiss", 'e');
    MissingCharMeansAbsent(n, "dso", 'd');
    GenericLibrary(n);
  }

  lemma SharedLibraryNormalized(dso: string)
    requires dso == "libc.so.6"
    ensures Normalize(dso) == "libc"
  {
    var n := "libc";
    assert dso == n + ".so" + ".6";
    MissingCharMeansAbsent(n, ".so", '.');
    NormalizeLibraryFile(n, ".6");
  }

  /** A name that starts with `lib` and that no earlier rule claims is a
      generic library. */
  lemma GenericLibrary(n: string)
    requires StartsWith(n, "lib")
    requires !StartsWith(n, "librv") && !StartsWith(n, "libboost") && !StartsWith(n, "libsemihost")
    requires !StartsWith(n, "x86_64") && !StartsWith(n, "libcode_")
    requires !Contains(n, "llvm") && !Contains(n, "tcc") && !Contains(n, "gcc")
    requires !Contains(n, "etiss") && !Contains(n, "dso")
    ensures Categorize(n) == "libs"
  {
    assert n !in ["cc1", "collect2", "ld"] && n !in ["bash", "rm"] by {
      assert n[0] == 'l' && n[1] == 'i';
    }
  }

  lemma LlvmLibraryTrimmed(dso: string)
    requires dso == "libLLVM-14.so.1"
    ensures CutAtDash(StripSharedObject(dso)) == "libLLVM"
  {
    var base, major, version := "libLLVM", "14", ".1";
    assert dso == base + "-" + major + ".so" + version;
    MissingCharMeansAbsent(base + "-" + major, ".so", '.');
    StripVersionedLibrary(base + "-" + major, version);
    CutAtFirstDash(base, major);
  }

  /** The normalisation steps, in order. */
  lemma NormalizeSteps(dso: string)
    ensures Normalize(dso) == ToLower(RemoveAll(RemoveAll(CutAtDash(StripSharedObject(dso)), '['), ']'))
  {
  }

  lemma LowerLibLlvm()
    ensures ToLower("libLLVM") == "libllvm"
  {
    var r := ToLower("libLLVM");
    assert r[0] == 'l' && r[1] == 'i' && r[2] == 'b';
    assert r[3] == 'l' && r[4] == 'l' && r[5] == 'v' && r[6] == 'm';
  }

  lemma LlvmLibraryNormalized(dso: string)
    requires dso == "libLLVM-14.so.1"
    ensures Normalize(dso) == "libllvm"
  {
    LlvmLibraryTrimmed(dso);
    var base := "libLLVM";
    NormalizeSteps(dso);
    RemoveAbsent(base, '[');
    RemoveAbsent(base, ']');
    LowerLibLlvm();
  }

  /** Without a `.so` in it, a name is left alone by step 1. */
  lemma {:induction false} StripWithoutSharedObject(a: string)
    requires !Contains(a, ".so")
    ensures StripSharedObject(a) == a
    decreases |a|
  {
    if a != [] {
      assert !StartsWith(a, ".so") by {
        if |a| >= 3 {
          assert !OccursAt(a, ".so", 0);
          assert a[..3] == a[..3];
        }
      }
      NoSharedObjectInTail(a);
      StripWithoutSharedObject(a[1..]);
    }
  }

  /** Removing the last character when it is the one removed. */
  lemma {:induction false} RemoveTrailing(m: string, c: char)
    ensures RemoveAll(m + [c], c) == RemoveAll(m, c)
  {
    if m != [] {
      assert (m + [c])[1..] == m[1..] + [c];
      RemoveTrailing(m[1..], c);
    }
  }

  /** Steps 3 and 4 strip one pair of enclosing brackets. */
  lemma RemoveBrackets(m: string)
    requires '[' !in m && ']' !in m
    ensures RemoveAll(RemoveAll("[" + m + "]", '['), ']') == m
  {
    var s := "[" + m + "]";
    assert s[1..] == m + "]";
    RemoveAbsent(m + "]", '[');
    RemoveTrailing(m, ']');
    RemoveAbsent(m, ']');
  }

  /** The kernel's pseudo-module loses its brackets and, matching no rule,
      keeps its name. */
  lemma KernelSymbolsExample(dso: string)
    requires dso == "[kernel.kallsyms]"
    ensures Normalize(dso) == "kernel.kallsyms"
    ensures ReplaceDsoName(dso) == "kernel.kallsyms"
  {
    KernelSymbolsNormalized(dso);
    ReplaceIsCategorizeOfNormalize(dso);
    KernelSymbolsMatchNoRule();
  }

  lemma KernelSymbolsNormalized(dso: string)
    requires dso == "[kernel.kallsyms]"
    ensures Normalize(dso) == "kernel.kallsyms"
  {
    var m := "kernel.kallsyms";
    KernelSymbolsUnchanged(dso);
    KernelSymbolsUnbracketed(m);
    RemoveBrackets(m);
    KernelSymbolsLower(m);
    NormalizeSteps(dso);
  }

  lemma KernelSymbolsUnchanged(dso: string)
    requires dso == "[kernel.kallsyms]"
    ensures CutAtDash(StripSharedObject(dso)) == "[" + "kernel.kallsyms" + "]"
  {
    assert forall i | 0 <= i < |dso| - 1 :: dso[i] == '.' ==> dso[i + 1] != 's';
    assert !Contains(dso, ".so") by {
      forall i | 0 <= i <= |dso| - 3 ensures !OccursAt(dso, ".so", i) {
        assert ".so"[0] == '.' && ".so"[1] == 's';
      }
    }
    StripWithoutSharedObject(dso);
    CutWithoutDash(dso);
  }

  lemma KernelSymbolsUnbracketed(m: string)
    requires m == "kernel.kallsyms"
    ensures '[' !in m && ']' !in m
  {
    forall i | 0 <= i < |m|
      ensures m[i] != '[' && m[i] != ']'
    {
    }
  }

  lemma KernelSymbolsLower(m: string)
    requires m == "kernel.kallsyms"
    ensures ToLower(m) == m
  {
    forall i | 0 <= i < |m|
      ensures !IsUpper(m[i])
    {
    }
    LowerOfLower(m);
  }

  lemma KernelSymbolsMatchNoRule()
    ensures Categorize("kernel.kallsyms") == "kernel.kallsyms"
  {
    var n := "kernel.kallsyms";
    KernelSymbolsHaveNoRulePrefix(n);
    KernelSymbolsHaveNoRuleInfix(n);
    assert n !in ["cc1", "collect2", "ld"] && n !in ["bash", "rm"] by {
      assert |n| == 15;
    }
  }

  lemma KernelSymbolsHaveNoRulePrefix(n: string)
    requires n == "kernel.kallsyms"
    ensures !StartsWith(n, "librv") && !StartsWith(n, "libboost") && !StartsWith(n, "libsemihost")
    ensures !StartsWith(n, "x86_64") && !StartsWith(n, "libcode_") && !StartsWith(n, "lib")
  {
    PrefixesDiffer(n, "k", "librv", 0);
    PrefixesDiffer(n, "k", "libboost", 0);
    PrefixesDiffer(n, "k", "libsemihost", 0);
    PrefixesDiffer(n, "k", "x86_64", 0);
    PrefixesDiffer(n, "k", "libcode_", 0);
    PrefixesDiffer(n, "k", "lib", 0);
  }

  lemma KernelSymbolsHaveNoRuleInfix(n: string)
    requires n == "kernel.kallsyms"
    ensures !Contains(n, "llvm") && !Contains(n, "tcc") && !Contains(n, "gcc")
    ensures !Contains(n, "etiss") && !Contains(n, "dso")
  {
    MissingCharMeansAbsent(n, "llvm", 'v');
    MissingCharMeansAbsent(n, "tcc", 't');
    MissingCharMeansAbsent(n, "gcc", 'g');
    MissingCharMeansAbsent(n, "etiss", 't');
    MissingCharMeansAbsent(n, "dso", 'd');
  }

  /** A library named after a JIT backend is classified by the backend,
      not as a generic library. */
  lemma LlvmLibraryExample(dso: string)
    requires dso == "libLLVM-14.so.1"
    ensures ReplaceDsoName(dso) == "llvm"
  {
    LlvmLibraryNormalized(dso);
    ReplaceIsCategorizeOfNormalize(dso);
    LibLlvmIsLlvm();
  }

  lemma LibLlvmIsLlvm()
    ensures Categorize("libllvm") == "llvm"
  {
    var n := "libllvm";
    PrefixesDiffer(n, "libllvm", "librv", 3);
    PrefixesDiffer(n, "libllvm", "libboost", 3);
    PrefixesDiffer(n, "libllvm", "libsemihost", 3);
    PrefixesDiffer(n, "libllvm", "x86_64", 0);
    PrefixesDiffer(n, "libllvm", "libcode_", 3);
    assert OccursAt(n, "llvm", 3);
    BackendNameBeatsLaterRules(n);
  }
}

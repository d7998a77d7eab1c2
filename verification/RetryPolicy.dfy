// Skip/retry rules and retry ceilings of one request (runtimeConfig.js).
module RetryPolicy {
  import opened Options

  /** What failed: an HTTP status, our own header timeout, or the network. */
  datatype Kind = Http(status: int) | ConnectTimeout | Network

  datatype Failure = Failure(status: int, kind: Kind, text: Option<string>)

  datatype Action = Skip | Retry | Malformed

  datatype Match = Match(kind: Option<Kind>, status: Option<int>, contains: Option<string>)

  datatype Rule = Rule(provider: string, match_: Option<Match>, action: Action)

  function LowerChar(c: char): char {
    if 'A' <= c <= 'Z' then c - 'A' + 'a' else c
  }

  function Lower(s: string): string {
    seq(|s|, i requires 0 <= i < |s| => LowerChar(s[i]))
  }

  predicate OccursAt(text: string, part: string, i: nat) {
    i + |part| <= |text| && text[i..i + |part|] == part
  }

  predicate Includes(text: string, part: string) {
    exists i :: 0 <= i <= |text| && OccursAt(text, part, i)
  }

  /** `contains` counts as a condition only when it is not empty. */
  predicate UsesText(m: Match) {
    m.contains.Some? && m.contains.value != ""
  }

  predicate TextMatches(m: Match, f: Failure) {
    UsesText(m) ==> Includes(if f.text.Some? then Lower(f.text.value) else "", Lower(m.contains.value))
  }

  /** All present conditions hold, and there is at least one. */
  predicate RuleMatches(provider: string, f: Failure, r: Rule) {
    && r.provider == provider && r.match_.Some? && !r.action.Malformed?
    && var m := r.match_.value;
    && (m.kind.Some? ==> m.kind.value == f.kind)
    && (m.status.Some? ==> m.status.value == f.status)
    && TextMatches(m, f)
    && (m.kind.Some? || m.status.Some? || UsesText(m))
  }

  /** The first rule in array order that matches. */
  function FirstMatch(provider: string, f: Failure, rules: seq<Rule>): Option<Rule> {
    if rules == [] then None
    else if RuleMatches(provider, f, rules[0]) then Some(rules[0])
    else FirstMatch(provider, f, rules[1..])
  }

  lemma {:induction false} FirstMatchIsFirst(provider: string, f: Failure, rules: seq<Rule>)
    ensures FirstMatch(provider, f, rules).None? <==>
              forall i :: 0 <= i < |rules| ==> !RuleMatches(provider, f, rules[i])
    ensures FirstMatch(provider, f, rules).Some? ==>
              exists i :: 0 <= i < |rules| && rules[i] == FirstMatch(provider, f, rules).value &&
                          RuleMatches(provider, f, rules[i]) && forall k :: 0 <= k < i ==>
                            !RuleMatches(provider, f, rules[k])
  {
    if rules != [] && !RuleMatches(provider, f, rules[0]) {
      FirstMatchIsFirst(provider, f, rules[1..]);
      if FirstMatch(provider, f, rules[1..]).Some? {
        var i :| 0 <= i < |rules[1..]| && rules[1..][i] == FirstMatch(provider, f, rules).value &&
                 RuleMatches(provider, f, rules[1..][i]) && forall k :: 0 <= k < i ==>
                   !RuleMatches(provider, f, rules[1..][k]);
        assert rules[i + 1] == rules[1..][i];
        forall k | 0 <= k < i + 1 ensures !RuleMatches(provider, f, rules[k]) {
          if k > 0 {
            assert rules[k] == rules[1..][k - 1];
          }
        }
      } else {
        forall i | 0 <= i < |rules| ensures !RuleMatches(provider, f, rules[i]) {
          if i > 0 {
            assert rules[i] == rules[1..][i - 1];
          }
        }
      }
    } else if rules != [] {
      assert rules[0] == FirstMatch(provider, f, rules).value;
    }
  }

  /** `findMatchingSkipRule`: the loop with its `has` flag and early `continue`s. */
  method FindMatchingSkipRule(provider: string, f: Failure, rules: seq<Rule>) returns (found: Option<Rule>)
    ensures found == FirstMatch(provider, f, rules)
  {
    for i := 0 to |rules|
      invariant FirstMatch(provider, f, rules) == FirstMatch(provider, f, rules[i..])
    {
      var r := rules[i];
      assert rules[i..][0] == r && rules[i..][1..] == rules[i + 1..];
      if r.provider != provider || r.match_.None? || r.action.Malformed? {
        continue;
      }
      var m := r.match_.value;
      var has := false;
      if m.kind.Some? {
        has := true;
        if m.kind.value != f.kind {
          continue;
        }
      }
      if m.status.Some? {
        has := true;
        if m.status.value != f.status {
          continue;
        }
      }
      if UsesText(m) {
        has := true;
        var text := if f.text.Some? then Lower(f.text.value) else "";
        if !Includes(text, Lower(m.contains.value)) {
          continue;
        }
      }
      if has {
        return Some(r);
      }
    }
    found := None;
  }

  /**
   * The policy of one `execute` call: in-place retries per status, the optional
   * ceiling on transport attempts, the optional rules, and the number of URLs.
   */
  datatype Policy = Policy(
    provider: string,
    baseRetry: map<int, int>,
    maxTransportAttempts: Option<nat>,
    skipRules: Option<seq<Rule>>,
    fallbackCount: nat
  )

  /** A ceiling counts the first try, and there is always at least one URL. */
  predicate ValidPolicy(p: Policy) {
    && (p.maxTransportAttempts.Some? ==> p.maxTransportAttempts.value >= 1)
    && p.fallbackCount >= 1
  }

  /** Whether any rule of this provider needs the error body. */
  predicate HasContainsRule(p: Policy) {
    p.skipRules.Some? &&
    exists i :: 0 <= i < |p.skipRules.value| && p.skipRules.value[i].provider == p.provider &&
                p.skipRules.value[i].match_.Some? && UsesText(p.skipRules.value[i].match_.value)
  }

  function MatchedRule(p: Policy, f: Failure): Option<Rule> {
    if p.skipRules.Some? then FirstMatch(p.provider, f, p.skipRules.value) else None
  }

  predicate SkipMatched(p: Policy, f: Failure) {
    MatchedRule(p, f).Some? && MatchedRule(p, f).value.action.Skip?
  }

  predicate RetryMatched(p: Policy, f: Failure) {
    MatchedRule(p, f).Some? && MatchedRule(p, f).value.action.Retry?
  }

  function Min(a: int, b: int): int {
    if a <= b then a else b
  }

  function Max(a: int, b: int): int {
    if a >= b then a else b
  }

  /** How many in-place retries this failure may use on its URL. */
  function ResolveAttempts(p: Policy, f: Failure): int {
    var base := if f.status in p.baseRetry then p.baseRetry[f.status] else 0;
    var cap := if p.maxTransportAttempts.Some? then Some(Max(0, p.maxTransportAttempts.value - 1)) else None;
    if SkipMatched(p, f) then 0
    else if RetryMatched(p, f) then (if cap.Some? then cap.value else base)
    else if f.kind.ConnectTimeout? then 0
    else if cap.Some? then Min(base, cap.value) else base
  }

  /** The largest number of in-place retries any failure can be granted. */
  ghost function MaxAttempts(p: Policy): nat {
    if p.maxTransportAttempts.Some? then Max(0, p.maxTransportAttempts.value - 1)
        else MaxOver(p.baseRetry.Keys, p.baseRetry)
  }

  ghost function MaxOver(keys: set<int>, m: map<int, int>): nat
    requires keys <= m.Keys
    decreases keys
  {
    if keys == {} then 0
    else
      var k := PickOne(keys);
      Max(m[k], MaxOver(keys - {k}, m))
  }

  ghost function PickOne<T>(s: set<T>): (x: T)
    requires s != {}
    ensures x in s
  {
    var x :| x in s;
    x
  }

  lemma {:induction false} MaxOverBounds(keys: set<int>, m: map<int, int>, s: int)
    requires keys <= m.Keys && s in keys
    ensures m[s] <= MaxOver(keys, m)
    decreases keys
  {
    var k := PickOne(keys);
    if k != s {
      MaxOverBounds(keys - {k}, m, s);
    }
  }

  /** The bound is tight: one less than the ceiling, or without one an entry of the table, zero if none is positive. */
  lemma MaxAttemptsIs(p: Policy)
    ensures p.maxTransportAttempts.Some? && p.maxTransportAttempts.value > 0 ==>
              MaxAttempts(p) == p.maxTransportAttempts.value - 1
    ensures p.maxTransportAttempts.None? ==>
              && (forall s :: s in p.baseRetry ==> p.baseRetry[s] <= MaxAttempts(p))
              && (MaxAttempts(p) == 0 || exists s :: s in p.baseRetry && p.baseRetry[s] == MaxAttempts(p))
  {
    forall s | s in p.baseRetry ensures p.baseRetry[s] <= MaxOver(p.baseRetry.Keys, p.baseRetry) {
      MaxOverBounds(p.baseRetry.Keys, p.baseRetry, s);
    }
    MaxOverAttained(p.baseRetry.Keys, p.baseRetry);
  }

  lemma {:induction false} MaxOverAttained(keys: set<int>, m: map<int, int>)
    requires keys <= m.Keys
    ensures MaxOver(keys, m) == 0 || exists s :: s in keys && m[s] == MaxOver(keys, m)
    decreases keys
  {
    if keys != {} {
      MaxOverAttained(keys - {PickOne(keys)}, m);
    }
  }

  lemma AttemptsBounded(p: Policy, f: Failure)
    ensures ResolveAttempts(p, f) <= MaxAttempts(p)
  {
    if f.status in p.baseRetry {
      MaxOverBounds(p.baseRetry.Keys, p.baseRetry, f.status);
    }
  }
}

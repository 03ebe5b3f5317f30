/** Upstream model sync: detecting which models a channel should gain and lose, and applying it
    (controller/channel_upstream_update.go). */
module UpstreamSync {
  import opened Text
  import opened Sequences
  import G = Gateway

  // ---------- lists of names ----------

  /** lo.Uniq: first occurrences, in order. */
  function Uniq(s: seq<string>): seq<string> {
    if s == [] then []
    else
      var front, last := Uniq(s[..|s| - 1]), s[|s| - 1];
      if last in front then front else front + [last]
  }

  function Normalize(models: seq<string>): seq<string> {
    Uniq(TrimmedPieces(models))
  }

  function In(names: seq<string>): string -> bool {
    m => m in names
  }

  function NotIn(names: seq<string>): string -> bool {
    m => m !in names
  }

  function Merge(start: seq<string>, appended: seq<string>): seq<string> {
    Normalize(start) + Keep(Normalize(appended), NotIn(Normalize(start)))
  }

  function Subtract(start: seq<string>, removed: seq<string>): seq<string> {
    Keep(Normalize(start), NotIn(Normalize(removed)))
  }

  function Intersect(start: seq<string>, allowed: seq<string>): seq<string> {
    Keep(Normalize(start), In(Normalize(allowed)))
  }

  function ApplySelected(origin: seq<string>, addModels: seq<string>, removeModels: seq<string>): seq<string> {
    var adds := Normalize(addModels);
    Subtract(Merge(origin, adds), Subtract(Normalize(removeModels), adds))
  }

  /** Distinct names that trimming leaves alone. */
  ghost predicate Normalized(s: seq<string>) {
    NoDuplicates(s) && forall m :: m in s ==> Clean(m)
  }

  lemma {:induction false} UniqKeepsMembers(s: seq<string>)
    ensures NoDuplicates(Uniq(s))
    ensures forall m :: m in Uniq(s) <==> m in s
    ensures NoDuplicates(s) ==> Uniq(s) == s
  {
    if s != [] {
      UniqKeepsMembers(s[..|s| - 1]);
      assert s == s[..|s| - 1] + [s[|s| - 1]];
    }
  }

  lemma NormalizeNormalizes(models: seq<string>)
    ensures Normalized(Normalize(models))
    ensures Normalized(models) ==> Normalize(models) == models
    ensures forall m :: m in Normalize(models) <==> m in TrimmedPieces(models)
  {
    TrimmedPiecesClean(models);
    UniqKeepsMembers(TrimmedPieces(models));
    if Normalized(models) {
      TrimmedPiecesOfClean(models);
    }
  }

  lemma KeepNormalized(s: seq<string>, p: string -> bool)
    requires Normalized(s)
    ensures Normalized(Keep(s, p)) && Normalize(Keep(s, p)) == Keep(s, p)
    ensures forall m :: m in Keep(s, p) <==> m in s && p(m)
  {
    KeepMembers(s, p);
    KeepNoDuplicates(s, p);
    NormalizeNormalizes(Keep(s, p));
  }

  // The list helpers as sets: union, difference and intersection of the trimmed names, without duplicates.

  lemma MergeIsUnion(a: seq<string>, b: seq<string>)
    ensures Normalized(Merge(a, b))
    ensures forall m :: m in Merge(a, b) <==> m in Normalize(a) || m in Normalize(b)
  {
    NormalizeNormalizes(a);
    NormalizeNormalizes(b);
    KeepNormalized(Normalize(b), NotIn(Normalize(a)));
    DisjointUnion(Normalize(a), Keep(Normalize(b), NotIn(Normalize(a))));
  }

  lemma DisjointUnion(a: seq<string>, b: seq<string>)
    requires Normalized(a) && Normalized(b)
    requires forall m :: m in b ==> m !in a
    ensures Normalized(a + b)
  {
    var c := a + b;
    forall i, j | 0 <= i < j < |c| ensures c[i] != c[j] {
      if i < |a| <= j {
        assert c[j] == b[j - |a|] && c[i] in a;
      }
    }
  }

  lemma SubtractIsDifference(a: seq<string>, b: seq<string>)
    ensures Normalized(Subtract(a, b))
    ensures forall m :: m in Subtract(a, b) <==> m in Normalize(a) && m !in Normalize(b)
  {
    NormalizeNormalizes(a);
    KeepNormalized(Normalize(a), NotIn(Normalize(b)));
  }

  lemma IntersectIsIntersection(a: seq<string>, b: seq<string>)
    ensures Normalized(Intersect(a, b))
    ensures forall m :: m in Intersect(a, b) <==> m in Normalize(a) && m in Normalize(b)
  {
    NormalizeNormalizes(a);
    KeepNormalized(Normalize(a), In(Normalize(b)));
  }

  // ---------- detection ----------

  /** What detection depends on besides lists: the model mapping, and whether the compiled regular
      expression of a rule matches a name (never, when it does not compile). */
  datatype Rules = Rules(mapping: map<string, string>, matches: (string, string) -> bool)

  predicate RuleIgnores(r: Rules, rule: string, m: string) {
    if HasPrefix(rule, "regex:") then r.matches(TrimSpace(rule[6..]), m) else rule == m
  }

  predicate Ignored(r: Rules, ignored: seq<string>, m: string) {
    exists rule :: rule in Normalize(ignored) && RuleIgnores(r, rule, m)
  }

  function Addable(r: Rules, local: seq<string>, ignored: seq<string>): string -> bool {
    m => m !in local && m !in r.mapping.Values && !Ignored(r, ignored, m)
  }

  function Removable(r: Rules, upstream: seq<string>): string -> bool {
    m => m !in r.mapping && m !in upstream
  }

  datatype Pending = Pending(add: seq<string>, remove: seq<string>)

  /** upstreamCollectPendingChangesFromModels. */
  function Detect(r: Rules, local: seq<string>, upstream: seq<string>, ignored: seq<string>): Pending {
    var ours, theirs := Normalize(local), Normalize(upstream);
    Pending(Normalize(Keep(theirs, Addable(r, ours, ignored))), Normalize(Keep(ours, Removable(r, theirs))))
  }

  /** Detection: the upstream names in upstream order that the channel lacks and nobody redirects to or
      ignores; the channel's names in its own order that upstream lacks and no redirect starts from. */
  lemma DetectFilters(r: Rules, local: seq<string>, upstream: seq<string>, ignored: seq<string>)
    ensures var ours, theirs := Normalize(local), Normalize(upstream);
            var pending := Detect(r, local, upstream, ignored);
            && pending.add == Keep(theirs, Addable(r, ours, ignored)) && Normalized(pending.add)
            && pending.remove == Keep(ours, Removable(r, theirs)) && Normalized(pending.remove)
            && (forall m :: m in pending.add <==> m in theirs && Addable(r, ours, ignored)(m))
            && (forall m :: m in pending.remove <==> m in ours && Removable(r, theirs)(m))
  {
    NormalizeNormalizes(local);
    NormalizeNormalizes(upstream);
    KeepNormalized(Normalize(upstream), Addable(r, Normalize(local), ignored));
    KeepNormalized(Normalize(local), Removable(r, Normalize(upstream)));
  }

  /** The same in plain terms. To add: names upstream has and the channel lacks, which are the target of no redirect,
      equal to no literal rule and matched by no expression. To remove: names the channel has and upstream lacks,
      from which no redirect starts. Both without repetition, in the order of the list they come from. */
  lemma DetectionMeans(r: Rules, local: seq<string>, upstream: seq<string>, ignored: seq<string>)
    ensures var pending := Detect(r, local, upstream, ignored);
            && (forall m :: m in pending.add
                  <==> m in Normalize(upstream) && m !in Normalize(local) && NotCovered(r, ignored, m))
            && (forall m :: m in pending.remove
                  <==> m in Normalize(local) && m !in Normalize(upstream) && m !in r.mapping)
            && NoDuplicates(pending.add) && NoDuplicates(pending.remove)
            && pending.add == Keep(Normalize(upstream), In(pending.add))
            && pending.remove == Keep(Normalize(local), In(pending.remove))
  {
    var ours, theirs, pending := Normalize(local), Normalize(upstream), Detect(r, local, upstream, ignored);
    DetectFilters(r, local, upstream, ignored);
    KeepSame(theirs, Addable(r, ours, ignored), In(pending.add));
    KeepSame(ours, Removable(r, theirs), In(pending.remove));
    forall m ensures m in pending.add <==> m in theirs && m !in ours && NotCovered(r, ignored, m) {
      NotCoveredMeans(r, ignored, m);
    }
  }

  /** No redirect leads to the name, no literal rule is equal to it and no expression matches it. */
  ghost predicate NotCovered(r: Rules, ignored: seq<string>, m: string) {
    && (forall source :: source in r.mapping ==> r.mapping[source] != m)
    && (forall rule :: rule in Normalize(ignored) ==>
          if "regex:" <= rule then !r.matches(TrimSpace(rule[6..]), m) else rule != m)
  }

  lemma NotCoveredMeans(r: Rules, ignored: seq<string>, m: string)
    ensures NotCovered(r, ignored, m) <==> m !in r.mapping.Values && !Ignored(r, ignored, m)
  {
    assert forall rule :: rule in Normalize(ignored) ==>
        (RuleIgnores(r, rule, m) <==> if "regex:" <= rule then r.matches(TrimSpace(rule[6..]), m) else rule == m);
  }

  /** First occurrences: what a second list adds stands behind, in its own order. */
  lemma {:induction false} UniqOfBoth(a: seq<string>, b: seq<string>)
    ensures Uniq(a + b) == Uniq(a) + Keep(Uniq(b), NotIn(Uniq(a)))
  {
    if b == [] {
      assert a + b == a;
    } else {
      var front, last := b[..|b| - 1], b[|b| - 1];
      UniqOfBoth(a, front);
      UniqOneMore(front, last);
      UniqOneMore(a + front, last);
      assert a + b == (a + front) + [last] && b == front + [last];
      OneOfBoth(Uniq(a), Uniq(front), last);
    }
  }

  function Added(names: seq<string>, m: string): seq<string> {
    if m in names then names else names + [m]
  }

  lemma UniqOneMore(s: seq<string>, m: string)
    ensures Uniq(s + [m]) == Added(Uniq(s), m)
  {
    assert (s + [m])[..|s|] == s;
  }

  lemma OneOfBoth(a: seq<string>, b: seq<string>, m: string)
    ensures Added(a + Keep(b, NotIn(a)), m) == a + Keep(Added(b, m), NotIn(a))
  {
    KeepMembers(b, NotIn(a));
    KeepOneMore(b, m, NotIn(a));
    assert a + Keep(b, NotIn(a)) + [m] == a + (Keep(b, NotIn(a)) + [m]);
  }

  lemma KeepOneMore(s: seq<string>, last: string, p: string -> bool)
    ensures Keep(s + [last], p) == Keep(s, p) + if p(last) then [last] else []
  {
    KeepAppend(s, [last], p);
    assert Keep([last][1..], p) == [];
  }

  // ---------- the channel row ----------

  datatype Settings = Settings(
    autoSync: bool, autoDelete: bool, ignored: seq<string>, detected: seq<string>, removed: seq<string>, lastCheck: int)

  /** The columns of a channel that the sync works on; `fallible` when the channel may be auto-disabled. */
  datatype Row = Row(models: string, settings: Settings, status: int, fallible: bool)

  function GetModels(models: string): seq<string> {
    Names(models, ',')
  }

  /** The names a models column stands for. */
  function NamesIn(models: string): seq<string> {
    Normalize(GetModels(models))
  }

  function Local(row: Row): seq<string> {
    NamesIn(row.models)
  }

  /** No name of the list holds the separator of the models column. */
  predicate NoCommas(names: seq<string>) {
    forall m :: m in names ==> ',' !in m
  }

  /** No name of the list reads as a regular-expression rule. */
  predicate NoRules(names: seq<string>) {
    forall m :: m in names ==> !HasPrefix(m, "regex:")
  }

  /** The stored pending lists are what detection against this upstream list gives. */
  ghost predicate InStep(r: Rules, row: Row, upstream: seq<string>) {
    Detect(r, GetModels(row.models), upstream, row.settings.ignored)
        == Pending(row.settings.detected, row.settings.removed)
  }

  // ---------- detection against application ----------

  /** The new rules ignore what the old ones did and the names just hushed: asked only of upstream names that
      the channel lacks, that nobody redirects to and that were not taken. */
  predicate RulesAgree(r: Rules, ours: seq<string>, theirs: seq<string>, taken: seq<string>, hushed: seq<string>,
                       ignored: seq<string>, rules: seq<string>) {
    forall m :: m in theirs && m !in ours && m !in r.mapping.Values && m !in taken ==>
      (Ignored(r, rules, m) <==> Ignored(r, ignored, m) || m in hushed)
  }

  /** Taking some pending names into the list, others into the rules, and dropping some: detection then
      gives what is left of its former lists, in the same order, if and only if the rules agree. */
  lemma DetectAfterIff(r: Rules, local: seq<string>, upstream: seq<string>, ignored: seq<string>,
                       taken: seq<string>, hushed: seq<string>, dropped: seq<string>,
                       next: seq<string>, rules: seq<string>)
    requires Normalized(taken)
    requires forall m :: m in taken || m in hushed ==> m in Detect(r, local, upstream, ignored).add
    requires forall m :: m in dropped ==> m in Detect(r, local, upstream, ignored).remove
    requires next == Keep(Normalize(local) + taken, NotIn(dropped))
    ensures Detect(r, next, upstream, rules)
         == Pending(Keep(Detect(r, local, upstream, ignored).add, NotIn(taken + hushed)),
                    Keep(Detect(r, local, upstream, ignored).remove, NotIn(dropped)))
       <==> RulesAgree(r, Normalize(local), Normalize(upstream), taken, hushed, ignored, rules)
  {
    var ours, theirs := Normalize(local), Normalize(upstream);
    DetectFilters(r, local, upstream, ignored);
    NormalizeNormalizes(local);
    DisjointUnion(ours, taken);
    KeepNormalized(ours + taken, NotIn(dropped));
    NormalizeNormalizes(next);
    DetectFilters(r, next, upstream, rules);
    StillAddableIff(r, ours, theirs, ignored, taken, hushed, next, rules);
    StillRemovable(r, ours, theirs, taken, dropped);
  }

  lemma StillAddableIff(r: Rules, ours: seq<string>, theirs: seq<string>, ignored: seq<string>,
                        taken: seq<string>, hushed: seq<string>, next: seq<string>, rules: seq<string>)
    requires forall m :: m in theirs ==> (m in next <==> m in ours || m in taken)
    ensures Keep(theirs, Addable(r, next, rules))
         == Keep(Keep(theirs, Addable(r, ours, ignored)), NotIn(taken + hushed))
       <==> RulesAgree(r, ours, theirs, taken, hushed, ignored, rules)
  {
    var before, rest := Addable(r, ours, ignored), NotIn(taken + hushed);
    if RulesAgree(r, ours, theirs, taken, hushed, ignored, rules) {
      KeepTwice(theirs, before, rest, Addable(r, next, rules));
    }
    KeepMembers(theirs, before);
    KeepMembers(Keep(theirs, before), rest);
    KeepMembers(theirs, Addable(r, next, rules));
    if Keep(theirs, Addable(r, next, rules)) == Keep(Keep(theirs, before), rest) {
      forall m | m in theirs && m !in ours && m !in r.mapping.Values && m !in taken
        ensures Ignored(r, rules, m) <==> Ignored(r, ignored, m) || m in hushed
      {
        assert Addable(r, next, rules)(m) <==> before(m) && rest(m);
      }
    }
  }

  lemma StillRemovable(r: Rules, ours: seq<string>, theirs: seq<string>, taken: seq<string>, dropped: seq<string>)
    requires forall m :: m in taken ==> m in theirs
    ensures Keep(Keep(ours + taken, NotIn(dropped)), Removable(r, theirs))
            == Keep(Keep(ours, Removable(r, theirs)), NotIn(dropped))
  {
    var both := Both(NotIn(dropped), Removable(r, theirs));
    KeepTwice(ours + taken, NotIn(dropped), Removable(r, theirs), both);
    KeepAppend(ours, taken, both);
    KeepNone(taken, both);
    KeepTwice(ours, Removable(r, theirs), NotIn(dropped), both);
  }

  function Both(p: string -> bool, q: string -> bool): string -> bool {
    m => p(m) && q(m)
  }

  /** The selections of a manual apply, cut down to what is pending. */
  datatype Selected = Selected(add: seq<string>, ignore: seq<string>, remove: seq<string>)

  function Select(pending: Pending, addInput: seq<string>, ignoreInput: seq<string>,
                  removeInput: seq<string>): Selected {
    var add := Intersect(addInput, pending.add);
    Selected(add, Intersect(ignoreInput, pending.add), Subtract(Intersect(removeInput, pending.remove), add))
  }

  function NextIgnored(ignored: seq<string>, sel: Selected): seq<string> {
    var merged := Merge(ignored, sel.ignore);
    if |sel.add| > 0 then Subtract(merged, sel.add) else merged
  }

  lemma SelectIsPending(r: Rules, local: seq<string>, upstream: seq<string>, ignored: seq<string>,
                        addInput: seq<string>, ignoreInput: seq<string>, removeInput: seq<string>)
    ensures var pending := Detect(r, local, upstream, ignored);
            var sel := Select(pending, addInput, ignoreInput, removeInput);
            && Normalized(sel.add) && Normalized(sel.ignore) && Normalized(sel.remove)
            && (forall m :: m in sel.add <==> m in Normalize(addInput) && m in pending.add)
            && (forall m :: m in sel.ignore <==> m in Normalize(ignoreInput) && m in pending.add)
            && (forall m :: m in sel.remove <==> m in Normalize(removeInput) && m in pending.remove)
  {
    DetectFilters(r, local, upstream, ignored);
    var pending := Detect(r, local, upstream, ignored);
    NormalizeNormalizes(pending.add);
    NormalizeNormalizes(pending.remove);
    IntersectIsIntersection(addInput, pending.add);
    IntersectIsIntersection(ignoreInput, pending.add);
    IntersectIsIntersection(removeInput, pending.remove);
    NormalizeNormalizes(Intersect(addInput, pending.add));
    NormalizeNormalizes(Intersect(removeInput, pending.remove));
    SubtractIsDifference(Intersect(removeInput, pending.remove), Intersect(addInput, pending.add));
  }

  /** Adding then removing selected names, as one filter. */
  lemma ApplySelectedIs(origin: seq<string>, add: seq<string>, remove: seq<string>)
    requires Normalized(origin) && Normalized(add) && Normalized(remove)
    requires forall m :: m in add ==> m !in origin && m !in remove
    ensures ApplySelected(origin, add, remove) == Keep(origin + add, NotIn(remove))
    ensures Normalized(origin + add)
  {
    NormalizeNormalizes(origin);
    NormalizeNormalizes(add);
    NormalizeNormalizes(remove);
    KeepAll(add, NotIn(origin));
    KeepAll(remove, NotIn(add));
    DisjointUnion(origin, add);
    NormalizeNormalizes(origin + add);
  }

  /** New rules: the ignored names join, the added ones go, and no regular expression is touched. */
  lemma NextIgnoredIgnores(r: Rules, ignored: seq<string>, sel: Selected, m: string)
    requires Normalized(sel.add) && Normalized(sel.ignore)
    requires forall x :: x in sel.add || x in sel.ignore ==> !HasPrefix(x, "regex:")
    requires m !in sel.add
    ensures Ignored(r, NextIgnored(ignored, sel), m) <==> Ignored(r, ignored, m) || m in sel.ignore
  {
    var merged := Merge(ignored, sel.ignore);
    NormalizeNormalizes(sel.add);
    NormalizeNormalizes(sel.ignore);
    MergeIsUnion(ignored, sel.ignore);
    NormalizeNormalizes(merged);
    SubtractIsDifference(merged, sel.add);
    NormalizeNormalizes(Subtract(merged, sel.add));
    if Ignored(r, ignored, m) {
      var rule :| rule in Normalize(ignored) && RuleIgnores(r, rule, m);
      assert rule in Normalize(NextIgnored(ignored, sel));
    }
    if m in sel.ignore {
      assert m in Normalize(NextIgnored(ignored, sel)) && RuleIgnores(r, m, m);
    }
  }

  /** What a selection does to the rules, seen by detection. */
  predicate RulesKept(r: Rules, local: seq<string>, upstream: seq<string>, ignored: seq<string>, sel: Selected) {
    RulesAgree(r, Normalize(local), Normalize(upstream), sel.add, sel.ignore, ignored, NextIgnored(ignored, sel))
  }

  /** After any partial manual apply, detection against the same upstream list gives exactly the remaining lists,
      if and only if the new rules ignore what the old ones did and the names just ignored. */
  lemma ApplyMeetsDetectionIff(r: Rules, local: seq<string>, upstream: seq<string>, ignored: seq<string>,
                               addInput: seq<string>, ignoreInput: seq<string>, removeInput: seq<string>)
    ensures var pending := Detect(r, local, upstream, ignored);
            var sel := Select(pending, addInput, ignoreInput, removeInput);
            Detect(r, ApplySelected(Normalize(local), sel.add, sel.remove), upstream, NextIgnored(ignored, sel))
            == Pending(Subtract(pending.add, sel.add + sel.ignore), Subtract(pending.remove, sel.remove))
            <==> RulesKept(r, local, upstream, ignored, sel)
  {
    var pending := Detect(r, local, upstream, ignored);
    var sel := Select(pending, addInput, ignoreInput, removeInput);
    DetectFilters(r, local, upstream, ignored);
    SelectIsPending(r, local, upstream, ignored, addInput, ignoreInput, removeInput);
    NormalizeNormalizes(local);
    ApplySelectedIs(Normalize(local), sel.add, sel.remove);
    DetectAfterIff(r, local, upstream, ignored, sel.add, sel.ignore, sel.remove,
                   ApplySelected(Normalize(local), sel.add, sel.remove), NextIgnored(ignored, sel));
    SubtractedPending(pending, sel);
  }

  /** They do whenever no selected name reads as a regular expression. */
  lemma PlainNamesKeepRules(r: Rules, local: seq<string>, upstream: seq<string>, ignored: seq<string>, sel: Selected)
    requires Normalized(sel.add) && Normalized(sel.ignore) && NoRules(sel.add + sel.ignore)
    ensures RulesKept(r, local, upstream, ignored, sel)
  {
    forall m | m !in sel.add
      ensures Ignored(r, NextIgnored(ignored, sel), m) <==> Ignored(r, ignored, m) || m in sel.ignore
    {
      forall x | x in sel.add || x in sel.ignore ensures !HasPrefix(x, "regex:") {
        assert x in sel.add + sel.ignore;
      }
      NextIgnoredIgnores(r, ignored, sel, m);
    }
  }

  /** Ignoring a name that reads as an expression and matches another pending name hides that one as well. */
  lemma IgnoredNameHidesAnother(r: Rules, local: seq<string>, upstream: seq<string>, ignored: seq<string>,
                                sel: Selected, name: string, other: string)
    requires Normalized(sel.add) && Normalized(sel.ignore)
    requires name in sel.ignore && name !in sel.add
    requires HasPrefix(name, "regex:") && r.matches(TrimSpace(name[6..]), other)
    requires other in Detect(r, local, upstream, ignored).add && other !in sel.add && other !in sel.ignore
    ensures !RulesKept(r, local, upstream, ignored, sel)
  {
    var merged := Merge(ignored, sel.ignore);
    DetectFilters(r, local, upstream, ignored);
    NormalizeNormalizes(sel.add);
    NormalizeNormalizes(sel.ignore);
    MergeIsUnion(ignored, sel.ignore);
    NormalizeNormalizes(merged);
    SubtractIsDifference(merged, sel.add);
    NormalizeNormalizes(Subtract(merged, sel.add));
    assert name in Normalize(NextIgnored(ignored, sel)) && RuleIgnores(r, name, other);
  }

  /** To a channel with nothing every name is new. */
  lemma AllPending(r: Rules, upstream: seq<string>)
    requires Normalized(upstream) && r.mapping == map[]
    ensures Detect(r, [], upstream, []).add == upstream
  {
    NormalizeNormalizes(upstream);
    NormalizeNormalizes([]);
    DetectFilters(r, [], upstream, []);
    KeepAll(upstream, Addable(r, [], []));
  }

  /** Upstream offers "b" and "regex:b", both new; the second is ignored. */
  lemma IgnoredExpressionExample(r: Rules)
    requires r.mapping == map[] && r.matches("b", "b")
    ensures Detect(r, [], ["b", "regex:b"], []).add == ["b", "regex:b"]
    ensures !RulesKept(r, [], ["b", "regex:b"], [], Selected([], ["regex:b"], []))
  {
    var plain, rule := "b", "regex:b";
    assert rule[6..] == plain && |rule| == 7 && HasPrefix(rule, "regex:");
    TrimSpaceClean(plain);
    NewRuleHides(r, plain, rule);
  }

  lemma NewRuleHides(r: Rules, plain: string, rule: string)
    requires r.mapping == map[] && Clean(plain) && Clean(rule) && plain != rule
    requires HasPrefix(rule, "regex:") && r.matches(TrimSpace(rule[6..]), plain)
    ensures Detect(r, [], [plain, rule], []).add == [plain, rule]
    ensures !RulesKept(r, [], [plain, rule], [], Selected([], [rule], []))
  {
    AllPending(r, [plain, rule]);
    IgnoredNameHidesAnother(r, [], [plain, rule], [], Selected([], [rule], []), rule, plain);
  }

  lemma SubtractedPending(pending: Pending, sel: Selected)
    requires Normalized(pending.add) && Normalized(pending.remove)
    requires Normalized(sel.add) && Normalized(sel.ignore) && Normalized(sel.remove)
    ensures Subtract(pending.add, sel.add + sel.ignore) == Keep(pending.add, NotIn(sel.add + sel.ignore))
    ensures Subtract(pending.remove, sel.remove) == Keep(pending.remove, NotIn(sel.remove))
  {
    NormalizeNormalizes(pending.add);
    NormalizeNormalizes(pending.remove);
    NormalizeNormalizes(sel.remove);
    TrimmedPiecesOfClean(sel.add + sel.ignore);
    NormalizeNormalizes(sel.add + sel.ignore);
    KeepSame(pending.add, NotIn(Normalize(sel.add + sel.ignore)), NotIn(sel.add + sel.ignore));
  }

  // ---------- the models column ----------

  lemma LocalHasNoCommas(row: Row)
    ensures Normalized(Local(row)) && forall m :: m in Local(row) ==> ',' !in m
  {
    NamesAreClean(row.models, ',');
    NormalizeNormalizes(GetModels(row.models));
    TrimmedPiecesOfClean(GetModels(row.models));
  }

  lemma ColumnRoundTrip(names: seq<string>)
    requires Normalized(names) && forall m :: m in names ==> ',' !in m
    ensures NamesIn(Join(names, ',')) == names
  {
    NamesOfJoin(names, ',');
    NormalizeNormalizes(names);
  }

  /** Detection looks at the normalized names only. */
  lemma DetectOfNormalized(r: Rules, local: seq<string>, upstream: seq<string>, ignored: seq<string>)
    ensures Detect(r, Normalize(local), upstream, ignored) == Detect(r, local, upstream, ignored)
  {
    NormalizeNormalizes(local);
    NormalizeNormalizes(Normalize(local));
  }

  // ---------- the operations ----------

  /** The pending lists as stored. */
  function Stored(row: Row): Pending {
    Pending(Normalize(row.settings.detected), Normalize(row.settings.removed))
  }

  function PendingOf(r: Rules, row: Row, upstream: seq<string>): Pending {
    Detect(r, GetModels(row.models), upstream, row.settings.ignored)
  }

  /** A name that upstream has, or from which a redirect starts, stays. */
  ghost predicate OnlyStaleNamesGo(r: Rules, before: Row, upstream: seq<string>, after: Row) {
    forall m :: m in Local(before) && (m in Normalize(upstream) || m in r.mapping) ==> m in Local(after)
  }

  /** A name that comes is one upstream has and no redirect leads to. */
  ghost predicate OnlyNewNamesCome(r: Rules, before: Row, upstream: seq<string>, after: Row) {
    forall m :: m in Local(after) && m !in Local(before) ==> m in Normalize(upstream) && m !in r.mapping.Values
  }

  /** Whether the status updates that may follow a check go through; a failing one is only logged. */
  datatype FollowUps = FollowUps(disableOk: bool, enableOk: bool)

  /** What a saved check does: with auto-apply it takes exactly the pending names its switches allow. The
      lists are in step afterwards, unless a name with a comma was taken. A channel emptied by the check
      falls, if it may; one that had fallen empty comes back. */
  ghost predicate Checked(r: Rules, before: Row, upstream: seq<string>, allowAutoApply: bool,
                          after: Row, modelsChanged: bool, autoAdded: nat, ok: bool, followUps: FollowUps) {
    var pending := PendingOf(r, before, upstream);
    var taken := if allowAutoApply && before.settings.autoSync then pending.add else [];
    var dropped := if allowAutoApply && before.settings.autoDelete then pending.remove else [];
    && (InStep(r, after, upstream) <==> NoCommas(taken))
    && (NoCommas(taken) ==>
          && Local(after) == Keep(Local(before) + taken, NotIn(dropped))
          && OnlyStaleNamesGo(r, before, upstream, after) && OnlyNewNamesCome(r, before, upstream, after)
          && autoAdded == |taken| && modelsChanged == (taken != [] || dropped != [])
          && var falls := ok && dropped != [] && Local(after) == [] && before.fallible;
             var rises := ok && taken != [] && before.status == G.AUTO_DISABLED && Local(before) == [];
             after.status == if falls && followUps.disableOk then G.AUTO_DISABLED
                             else if rises && followUps.enableOk then G.ENABLED
                             else before.status)
  }

  class Channel {
    var row: Row

    constructor (row: Row)
      ensures this.row == row
    {
      this.row := row;
    }

    /** doApplyChannelUpstreamModelUpdates on a freshly loaded row. If the pending lists were in step with an
        upstream list they still are, and are what remains, exactly when the rules are kept; not so when a name
        with a comma was added. */
    method Apply(ghost r: Rules, ghost upstream: seq<string>, addInput: seq<string>, ignoreInput: seq<string>,
                 removeInput: seq<string>,
                 now: int, saveOk: bool, abilitiesOk: bool)
      returns (sel: Selected, remaining: Pending, modelsChanged: bool, ok: bool)
      modifies this
      ensures ok == (saveOk && (modelsChanged ==> abilitiesOk))
      ensures !saveOk ==> row == old(row) && !modelsChanged
      ensures saveOk ==> sel == Select(Stored(old(row)), addInput, ignoreInput, removeInput)
      ensures saveOk ==> row.settings.ignored == NextIgnored(old(row).settings.ignored, sel)
      ensures saveOk ==>
                row == old(row).(models := row.models,
                                 settings := old(row).settings.(
                                   ignored := row.settings.ignored, detected := remaining.add,
                                   removed := remaining.remove, lastCheck := now))
      ensures saveOk && InStep(r, old(row), upstream) && NoCommas(sel.add) ==>
                (InStep(r, row, upstream)
                 <==> RulesKept(r, GetModels(old(row).models), upstream, old(row).settings.ignored, sel))
      ensures saveOk && InStep(r, old(row), upstream) && NoRules(sel.ignore) && !NoCommas(sel.add) ==>
                !InStep(r, row, upstream)
      ensures saveOk && InStep(r, old(row), upstream) && NoCommas(sel.add) ==>
                && modelsChanged == (Local(row) != old(Local(row)))
                && Local(row) == Keep(old(Local(row)) + sel.add, NotIn(sel.remove))
                && remaining.add == Keep(old(row).settings.detected, NotIn(sel.add + sel.ignore))
                && remaining.remove == Keep(old(row).settings.removed, NotIn(sel.remove))
    {
      var settings := row.settings;
      var pendingAdd := Normalize(settings.detected);
      var pendingRemove := Normalize(settings.removed);
      var addModels := Intersect(addInput, pendingAdd);
      var ignoreModels := Intersect(ignoreInput, pendingAdd);
      var removeModels := Subtract(Intersect(removeInput, pendingRemove), addModels);
      sel := Selected(addModels, ignoreModels, removeModels);

      var origin := NamesIn(row.models);
      var next := ApplySelected(origin, addModels, removeModels);
      modelsChanged := origin != next;
      var models := if modelsChanged then Join(next, ',') else row.models;

      var ignored := Merge(settings.ignored, ignoreModels);
      if |addModels| > 0 {
        ignored := Subtract(ignored, addModels);
      }
      remaining := Pending(Subtract(pendingAdd, addModels + ignoreModels), Subtract(pendingRemove, removeModels));
      settings := settings.(ignored := ignored, detected := remaining.add, removed := remaining.remove,
                            lastCheck := now);
      ghost var before := row;
      if !saveOk {
        return Selected([], [], []), Pending([], []), false, false;
      }
      row := row.(models := models, settings := settings);
      ok := !modelsChanged || abilitiesOk;
      if InStep(r, before, upstream) {
        ApplyKeepsInStep(r, before, upstream, addInput, ignoreInput, removeInput, row);
      }
    }

    /** checkAndPersistUpstreamChanges on a freshly loaded row; `fetched` is the upstream list, None on an
        error. With auto-apply it takes exactly the pending names its switches allow. */
    method Check(r: Rules, fetched: Option<seq<string>>, now: int, minInterval: int, force: bool, allowAutoApply: bool,
                 saveOk: bool, abilitiesOk: bool, followUps: FollowUps)
      returns (modelsChanged: bool, autoAdded: nat, ran: bool, ok: bool)
      modifies this
      ensures ran == (force || !(old(row).settings.lastCheck > 0 && now - old(row).settings.lastCheck < minInterval))
      ensures !ran ==> row == old(row) && ok
      ensures ran && fetched in {None, Some([])} ==>
                !ok && row == if saveOk then old(row).(settings := old(row).settings.(lastCheck := now)) else old(row)
      ensures !ran || fetched in {None, Some([])} || !saveOk ==> !modelsChanged && autoAdded == 0
      ensures ran && !saveOk ==> row == old(row) && !ok
      ensures ran && saveOk && fetched !in {None, Some([])} ==>
                && Checked(r, old(row), fetched.value, allowAutoApply, row, modelsChanged, autoAdded, ok, followUps)
                && ok == (modelsChanged ==> abilitiesOk)
                && row.settings == old(row).settings.(detected := row.settings.detected,
                                                      removed := row.settings.removed, lastCheck := now)
    {
      ran := force || !(row.settings.lastCheck > 0 && now - row.settings.lastCheck < minInterval);
      if !ran {
        return false, 0, false, true;
      }
      modelsChanged, autoAdded := false, 0;
      if fetched.None? || |fetched.value| == 0 {
        if saveOk {
          row := row.(settings := row.settings.(lastCheck := now));
        }
        return false, 0, true, false;
      }
      var after, changed, added, synced :=
        Synchronise(r, row, fetched.value, now, allowAutoApply, abilitiesOk, followUps);
      if !saveOk {
        return false, 0, true, false;
      }
      row, modelsChanged, autoAdded, ok := after, changed, added, synced;
    }
  }

  /** The part of a check that follows a good fetch, up to the save. */
  method Synchronise(r: Rules, row: Row, upstream: seq<string>, now: int, allowAutoApply: bool, abilitiesOk: bool,
                     followUps: FollowUps)
    returns (after: Row, modelsChanged: bool, autoAdded: nat, ok: bool)
    ensures Checked(r, row, upstream, allowAutoApply, after, modelsChanged, autoAdded, ok, followUps)
    ensures ok == (modelsChanged ==> abilitiesOk)
    ensures after == row.(models := after.models, status := after.status,
                          settings := row.settings.(detected := after.settings.detected,
                                                    removed := after.settings.removed, lastCheck := now))
  {
    var settings, status := row.settings, row.status;
    var pending := Detect(r, GetModels(row.models), upstream, settings.ignored);
    ghost var taken := if allowAutoApply && settings.autoSync then pending.add else [];
    ghost var dropped := if allowAutoApply && settings.autoDelete then pending.remove else [];
    var models, detected, added := TakePending(r, row, upstream, pending, allowAutoApply && settings.autoSync);
    var autoReenabled := added > 0 && status == G.AUTO_DISABLED && |NamesIn(row.models)| == 0;
    var left, removed, deleted, allModelsRemoved :=
        DropPending(r, row, upstream, pending, taken, models, allowAutoApply && settings.autoDelete);
    autoAdded := added;
    modelsChanged := added > 0 || deleted;
    ok := !modelsChanged || abilitiesOk;
    if modelsChanged && ok {
      if allModelsRemoved && followUps.disableOk && row.fallible {
        status := G.AUTO_DISABLED;
      }
      if autoReenabled && followUps.enableOk {
        status := G.ENABLED;
      }
    }
    after := row.(models := left, settings := settings.(detected := detected, removed := removed, lastCheck := now),
                  status := status);
    AutoApplyInStepIff(r, row, upstream, taken, dropped, after);
    if NoCommas(taken) {
      AutoApplyKeepsNames(r, row, upstream, taken, dropped, after);
    }
  }

  lemma AutoApplyKeepsNames(r: Rules, before: Row, upstream: seq<string>, taken: seq<string>, dropped: seq<string>,
                            after: Row)
    requires taken == [] || taken == PendingOf(r, before, upstream).add
    requires dropped == [] || dropped == PendingOf(r, before, upstream).remove
    requires Local(after) == Keep(Local(before) + taken, NotIn(dropped))
    ensures OnlyStaleNamesGo(r, before, upstream, after) && OnlyNewNamesCome(r, before, upstream, after)
  {
    AutoApplyMembers(r, before, upstream, taken, dropped);
  }

  lemma AutoApplyMembers(r: Rules, before: Row, upstream: seq<string>, taken: seq<string>, dropped: seq<string>)
    requires taken == [] || taken == PendingOf(r, before, upstream).add
    requires dropped == [] || dropped == PendingOf(r, before, upstream).remove
    ensures var next := Keep(Local(before) + taken, NotIn(dropped));
            && (forall m :: m in Local(before) && (m in Normalize(upstream) || m in r.mapping) ==> m in next)
            && (forall m :: m in next && m !in Local(before) ==> m in Normalize(upstream) && m !in r.mapping.Values)
  {
    DetectFilters(r, GetModels(before.models), upstream, before.settings.ignored);
    KeepMembers(Local(before) + taken, NotIn(dropped));
  }

  /** The auto-sync part of a check. */
  method TakePending(ghost r: Rules, row: Row, ghost upstream: seq<string>, pending: Pending, on: bool)
    returns (models: string, detected: seq<string>, added: nat)
    requires pending == PendingOf(r, row, upstream)
    ensures var taken := if on then pending.add else [];
            && detected == (if taken == [] then pending.add else [])
            && (NoCommas(taken) ==> added == |taken| && NamesIn(models) == Local(row) + taken)
  {
    models, detected, added := row.models, pending.add, 0;
    if on && |pending.add| > 0 {
      var localModels := NamesIn(row.models);
      var merged := Merge(localModels, pending.add);
      if NoCommas(pending.add) {
        AutoTakes(r, row, upstream, pending.add);
      }
      if |merged| > |localModels| {
        models := Join(merged, ',');
        added := |merged| - |localModels|;
      }
      detected := [];
    }
  }

  /** The auto-delete part of a check, on the column that auto-sync left. */
  method DropPending(ghost r: Rules, ghost row: Row, ghost upstream: seq<string>, pending: Pending,
                     ghost taken: seq<string>,
                     models: string, on: bool)
    returns (left: string, removed: seq<string>, deleted: bool, allRemoved: bool)
    requires pending == PendingOf(r, row, upstream) && (taken == [] || taken == pending.add)
    ensures var dropped := if on then pending.remove else [];
            NoCommas(taken) && NamesIn(models) == Local(row) + taken ==>
              && removed == (if dropped == [] then pending.remove else [])
              && deleted == (dropped != []) && allRemoved == (deleted && NamesIn(left) == [])
              && NamesIn(left) == Keep(Local(row) + taken, NotIn(dropped))
  {
    left, removed, deleted, allRemoved := models, pending.remove, false, false;
    if on && |pending.remove| > 0 {
      var current := NamesIn(models);
      var updated := Subtract(current, pending.remove);
      if NoCommas(taken) && current == Local(row) + taken {
        AutoDrops(r, row, upstream, taken);
      }
      if |updated| < |current| {
        left := Join(updated, ',');
        deleted := true;
        allRemoved := |updated| == 0;
        removed := [];
      }
    } else {
      KeepAll(NamesIn(models), NotIn([]));
    }
  }

  lemma {:induction false} KeepDrops(s: seq<string>, p: string -> bool)
    ensures |Keep(s, p)| <= |s|
    ensures (exists m :: m in s && !p(m)) ==> |Keep(s, p)| < |s|
  {
    if s != [] {
      KeepDrops(s[1..], p);
    }
  }

  /** Auto-sync: the pending names are appended, and read back from the column. */
  lemma AutoTakes(r: Rules, before: Row, upstream: seq<string>, taken: seq<string>)
    requires NoCommas(taken) && (taken == [] || taken == PendingOf(r, before, upstream).add)
    ensures Normalized(Local(before) + taken)
    ensures Merge(Local(before), taken) == Local(before) + taken
    ensures taken != [] ==> NamesIn(Join(Local(before) + taken, ',')) == Local(before) + taken
  {
    var ours := Local(before);
    DetectFilters(r, GetModels(before.models), upstream, before.settings.ignored);
    LocalHasNoCommas(before);
    DisjointUnion(ours, taken);
    NormalizeNormalizes(ours);
    NormalizeNormalizes(taken);
    KeepAll(taken, NotIn(ours));
    ColumnRoundTrip(ours + taken);
  }

  /** Auto-delete: the pending names are gone, and the rest is read back from the column. */
  lemma AutoDrops(r: Rules, before: Row, upstream: seq<string>, taken: seq<string>)
    requires NoCommas(taken) && (taken == [] || taken == PendingOf(r, before, upstream).add)
    ensures var current, dropped := Local(before) + taken, PendingOf(r, before, upstream).remove;
            && Subtract(current, dropped) == Keep(current, NotIn(dropped))
            && (dropped != [] ==> |Keep(current, NotIn(dropped))| < |current|)
            && NamesIn(Join(Keep(current, NotIn(dropped)), ',')) == Keep(current, NotIn(dropped))
  {
    var current, dropped := Local(before) + taken, PendingOf(r, before, upstream).remove;
    DetectFilters(r, GetModels(before.models), upstream, before.settings.ignored);
    AutoTakes(r, before, upstream, taken);
    LocalHasNoCommas(before);
    NormalizeNormalizes(current);
    NormalizeNormalizes(dropped);
    KeepNormalized(current, NotIn(dropped));
    KeepDrops(current, NotIn(dropped));
    if dropped != [] {
      assert dropped[0] in dropped && dropped[0] in current;
    }
    ColumnRoundTrip(Keep(current, NotIn(dropped)));
  }

  /** Detection after the pending names of either side were taken or dropped, all of them or none. */
  lemma DetectAfterAuto(r: Rules, local: seq<string>, upstream: seq<string>, ignored: seq<string>,
                        taken: seq<string>, dropped: seq<string>)
    requires var pending := Detect(r, local, upstream, ignored);
             (taken == [] || taken == pending.add) && (dropped == [] || dropped == pending.remove)
    ensures var pending := Detect(r, local, upstream, ignored);
            Detect(r, Keep(Normalize(local) + taken, NotIn(dropped)), upstream, ignored)
            == Pending(if taken == [] then pending.add else [], if dropped == [] then pending.remove else [])
  {
    var pending := Detect(r, local, upstream, ignored);
    DetectFilters(r, local, upstream, ignored);
    NormalizeNormalizes([]);
    DetectAfterIff(r, local, upstream, ignored, taken, [], dropped,
                   Keep(Normalize(local) + taken, NotIn(dropped)), ignored);
    assert taken + [] == taken;
    KeepLeft(pending.add, taken);
    KeepLeft(pending.remove, dropped);
  }

  /** After auto-apply nothing it was allowed to take is pending any more, and the rest still is. */
  lemma AutoApplyKeepsInStep(r: Rules, before: Row, upstream: seq<string>,
                             taken: seq<string>, dropped: seq<string>, after: Row)
    requires taken == [] || taken == PendingOf(r, before, upstream).add
    requires dropped == [] || dropped == PendingOf(r, before, upstream).remove
    requires Local(after) == Keep(Local(before) + taken, NotIn(dropped))
    requires after.settings.ignored == before.settings.ignored
    requires after.settings.detected == (if taken == [] then PendingOf(r, before, upstream).add else [])
    requires after.settings.removed == (if dropped == [] then PendingOf(r, before, upstream).remove else [])
    ensures InStep(r, after, upstream)
  {
    DetectAfterAuto(r, GetModels(before.models), upstream, before.settings.ignored, taken, dropped);
    DetectOfNormalized(r, GetModels(after.models), upstream, after.settings.ignored);
  }

  lemma AutoApplyInStepIff(r: Rules, before: Row, upstream: seq<string>, taken: seq<string>, dropped: seq<string>,
                           after: Row)
    requires taken == [] || taken == PendingOf(r, before, upstream).add
    requires dropped == [] || dropped == PendingOf(r, before, upstream).remove
    requires NoCommas(taken) ==> Local(after) == Keep(Local(before) + taken, NotIn(dropped))
    requires NoCommas(taken)
             ==> after.settings.removed == (if dropped == [] then PendingOf(r, before, upstream).remove else [])
    requires after.settings.detected == (if taken == [] then PendingOf(r, before, upstream).add else [])
    requires after.settings.ignored == before.settings.ignored
    ensures InStep(r, after, upstream) <==> NoCommas(taken)
  {
    if NoCommas(taken) {
      AutoApplyKeepsInStep(r, before, upstream, taken, dropped, after);
    } else {
      var m :| m in taken && ',' in m;
      DetectFilters(r, GetModels(before.models), upstream, before.settings.ignored);
      CommaNameStaysPending(r, before, upstream, m, after);
    }
  }

  lemma KeepLeft(all: seq<string>, gone: seq<string>)
    requires gone == [] || gone == all
    ensures Keep(all, NotIn(gone)) == if gone == [] then all else []
  {
    if gone == [] {
      KeepAll(all, NotIn(gone));
    } else {
      KeepNone(all, NotIn(gone));
    }
  }

  /** A name with a comma cannot be stored: it stays pending whatever is written to the models column. */
  lemma CommaNameStaysPending(r: Rules, before: Row, upstream: seq<string>, m: string, after: Row)
    requires m in PendingOf(r, before, upstream).add && ',' in m && !Ignored(r, after.settings.ignored, m)
    ensures m in PendingOf(r, after, upstream).add
  {
    DetectFilters(r, GetModels(before.models), upstream, before.settings.ignored);
    DetectFilters(r, GetModels(after.models), upstream, after.settings.ignored);
    LocalHasNoCommas(after);
  }

  /** Adding a name takes it off the literal rules. */
  lemma AddedIsNotIgnored(r: Rules, ignored: seq<string>, sel: Selected, m: string)
    requires Normalized(sel.add) && Normalized(sel.ignore)
    requires forall x :: x in sel.ignore ==> !HasPrefix(x, "regex:")
    requires m in sel.add && !Ignored(r, ignored, m)
    ensures !Ignored(r, NextIgnored(ignored, sel), m)
  {
    var merged := Merge(ignored, sel.ignore);
    NormalizeNormalizes(sel.add);
    NormalizeNormalizes(sel.ignore);
    MergeIsUnion(ignored, sel.ignore);
    NormalizeNormalizes(merged);
    SubtractIsDifference(merged, sel.add);
    NormalizeNormalizes(Subtract(merged, sel.add));
  }

  lemma ApplyKeepsInStep(r: Rules, before: Row, upstream: seq<string>,
                         addInput: seq<string>, ignoreInput: seq<string>, removeInput: seq<string>, after: Row)
    requires InStep(r, before, upstream)
    requires var sel := Select(Stored(before), addInput, ignoreInput, removeInput);
             var next := ApplySelected(Local(before), sel.add, sel.remove);
             && after.models == (if Local(before) != next then Join(next, ',') else before.models)
             && after.settings.ignored == NextIgnored(before.settings.ignored, sel)
             && after.settings.detected == Subtract(Stored(before).add, sel.add + sel.ignore)
             && after.settings.removed == Subtract(Stored(before).remove, sel.remove)
    ensures var sel := Select(Stored(before), addInput, ignoreInput, removeInput);
            if NoCommas(sel.add)
            then InStep(r, after, upstream)
                 <==> RulesKept(r, GetModels(before.models), upstream, before.settings.ignored, sel)
            else NoRules(sel.ignore) ==> !InStep(r, after, upstream)
    ensures Stored(before) == Pending(before.settings.detected, before.settings.removed)
    ensures var sel := Select(Stored(before), addInput, ignoreInput, removeInput);
            && (NoCommas(sel.add) ==> Local(after) == ApplySelected(Local(before), sel.add, sel.remove))
            && ApplySelected(Local(before), sel.add, sel.remove) == Keep(Local(before) + sel.add, NotIn(sel.remove))
            && after.settings.detected == Keep(before.settings.detected, NotIn(sel.add + sel.ignore))
            && after.settings.removed == Keep(before.settings.removed, NotIn(sel.remove))
  {
    var local := GetModels(before.models);
    var pending := Detect(r, local, upstream, before.settings.ignored);
    var sel := Select(pending, addInput, ignoreInput, removeInput);
    var next := ApplySelected(Local(before), sel.add, sel.remove);
    DetectFilters(r, local, upstream, before.settings.ignored);
    NormalizeNormalizes(pending.add);
    NormalizeNormalizes(pending.remove);
    SelectIsPending(r, local, upstream, before.settings.ignored, addInput, ignoreInput, removeInput);
    LocalHasNoCommas(before);
    ApplySelectedIs(Local(before), sel.add, sel.remove);
    KeepNormalized(Local(before) + sel.add, NotIn(sel.remove));
    SubtractedPending(pending, sel);
    if !NoCommas(sel.add) {
      if !NoRules(sel.ignore) {
        return;
      }
      var m :| m in sel.add && ',' in m;
      AddedIsNotIgnored(r, before.settings.ignored, sel, m);
      CommaNameStaysPending(r, before, upstream, m, after);
      KeepMembers(pending.add, NotIn(sel.add + sel.ignore));
      return;
    }
    ColumnRoundTrip(next);
    assert Local(after) == next;
    ApplyMeetsDetectionIff(r, local, upstream, before.settings.ignored, addInput, ignoreInput, removeInput);
    DetectOfNormalized(r, GetModels(after.models), upstream, after.settings.ignored);
  }

  /** After a full apply nothing is pending, if and only if what was ignored still is: an added name that reads as
      an expression is taken off the rules. */
  lemma FullApplyLeavesNothingIff(r: Rules, local: seq<string>, upstream: seq<string>, ignored: seq<string>)
    ensures var pending := Detect(r, local, upstream, ignored);
            var sel := Select(pending, pending.add, [], pending.remove);
            && sel == Selected(pending.add, [], pending.remove)
            && (Detect(r, ApplySelected(Normalize(local), sel.add, sel.remove), upstream, NextIgnored(ignored, sel))
                == Pending([], [])
                <==> RulesKept(r, local, upstream, ignored, sel))
            && (NoRules(pending.add) ==> RulesKept(r, local, upstream, ignored, sel))
  {
    var pending := Detect(r, local, upstream, ignored);
    var sel := Select(pending, pending.add, [], pending.remove);
    SelectsAll(r, local, upstream, ignored);
    ApplyMeetsDetectionIff(r, local, upstream, ignored, pending.add, [], pending.remove);
    SubtractedPending(pending, sel);
    KeepNone(pending.add, NotIn(sel.add + sel.ignore));
    KeepNone(pending.remove, NotIn(sel.remove));
    if NoRules(pending.add) {
      PlainNamesKeepRules(r, local, upstream, ignored, sel);
    }
  }

  lemma SelectsAll(r: Rules, local: seq<string>, upstream: seq<string>, ignored: seq<string>)
    ensures var pending := Detect(r, local, upstream, ignored);
            && Normalized(pending.add) && Normalized(pending.remove) && Normalized([])
            && Select(pending, pending.add, [], pending.remove) == Selected(pending.add, [], pending.remove)
  {
    var pending := Detect(r, local, upstream, ignored);
    DetectFilters(r, local, upstream, ignored);
    NormalizeNormalizes(pending.add);
    NormalizeNormalizes(pending.remove);
    NormalizeNormalizes([]);
    KeepAll(pending.add, In(pending.add));
    KeepAll(pending.remove, In(pending.remove));
    KeepAll(pending.remove, NotIn(pending.add));
  }
}

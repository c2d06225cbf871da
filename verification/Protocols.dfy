/** Protocol definitions: typed records arranged in a tree of rule sets. */
module Protocols {
  import opened Wrappers
  import opened Text
  import opened DidDocument
  import opened KeyDerivation

  datatype Who = Anyone | Author | Recipient

  datatype Action = WhoAction(who: Who, of: Option<string>, canRead: bool) | RoleAction(name: string)

  /** One node of the tree, without its children; `authored` is every member not looked at here. */
  datatype Rule = Rule(keyAgreement: Option<PublicKey>, actions: seq<Action>, role: Option<bool>,
                       reference: Option<string>, authored: Json)

  datatype RuleSet = RuleSet(rule: Rule, rules: map<string, RuleSet>)

  datatype Definition = Definition(
    protocol: string, keyAgreement: Option<PublicKey>, encryptionRequired: map<string, Option<bool>>,
    structure: map<string, RuleSet>, authored: Json)

  /** The top of a definition as a rule set that stands for no record of its own. */
  const TOP: Rule := Rule(None, [], None, Some(""), JNull)

  function Root(d: Definition): RuleSet {
    RuleSet(TOP, d.structure)
  }

  /** The rule at a path below a rule set. */
  function At(r: RuleSet, path: seq<string>): Option<Rule>
    decreases |path|
  {
    if path == [] then Some(r.rule)
    else if path[0] in r.rules then At(r.rules[path[0]], path[1..])
    else None
  }

  function NonEmpty(segments: seq<string>): seq<string> {
    if segments == [] then []
    else (if segments[0] == "" then [] else [segments[0]]) + NonEmpty(segments[1..])
  }

  /** The segments of a written protocol path: split at slashes, empty pieces dropped. */
  function PathOf(text: string): seq<string> {
    NonEmpty(Split(text, '/'))
  }

  predicate RequiresEncryption(d: Definition) {
    exists name | name in d.encryptionRequired :: d.encryptionRequired[name] == Some(true)
  }

  predicate RuleSetHasEncryption(r: RuleSet) {
    r.rule.keyAgreement.Some? || exists name | name in r.rules :: RuleSetHasEncryption(r.rules[name])
  }

  predicate HasEncryption(d: Definition) {
    exists name | name in d.structure :: RuleSetHasEncryption(d.structure[name])
  }

  predicate AdmitsReader(a: Action, nested: bool) {
    a.WhoAction? && a.who != Anyone && a.canRead && (!nested || a.of.Some?)
  }

  predicate RuleSetAllowsMultiParty(r: RuleSet, nested: bool) {
    || r.rule.role == Some(true)
    || (exists a <- r.rule.actions :: AdmitsReader(a, nested))
    || exists name | name in r.rules :: RuleSetAllowsMultiParty(r.rules[name], true)
  }

  predicate AllowsMultiParty(d: Definition) {
    exists name | name in d.structure :: RuleSetAllowsMultiParty(d.structure[name], false)
  }

  // ------------------------------------------------------------------ facts

  /** A rule set is determined by the rules at its paths. */
  lemma {:induction false} SameRulesSameTree(a: RuleSet, b: RuleSet)
    requires forall path: seq<string> :: At(a, path) == At(b, path)
    ensures a == b
    decreases a
  {
    assert At(a, []) == At(b, []);
    forall name
      ensures name in a.rules <==> name in b.rules
    {
      AtCons(a, name, []);
      AtCons(b, name, []);
      assert At(a, [name] + []) == At(b, [name] + []);
    }
    forall name | name in a.rules
      ensures a.rules[name] == b.rules[name]
    {
      forall path: seq<string>
        ensures At(a.rules[name], path) == At(b.rules[name], path)
      {
        AtCons(a, name, path);
        AtCons(b, name, path);
        assert At(a, [name] + path) == At(b, [name] + path);
      }
      SameRulesSameTree(a.rules[name], b.rules[name]);
    }
    assert a.rules == b.rules;
  }

  lemma AtCons(r: RuleSet, name: string, path: seq<string>)
    ensures At(r, [name] + path) == if name in r.rules then At(r.rules[name], path) else None
  {
  }

  predicate EncryptedAt(r: RuleSet, path: seq<string>) {
    At(r, path).Some? && At(r, path).value.keyAgreement.Some?
  }

  lemma {:induction false} HasEncryptionIff(r: RuleSet)
    ensures RuleSetHasEncryption(r) <==> exists path: seq<string> :: EncryptedAt(r, path)
    decreases r
  {
    if RuleSetHasEncryption(r) {
      if r.rule.keyAgreement.Some? {
        assert EncryptedAt(r, []);
      } else {
        var name :| name in r.rules && RuleSetHasEncryption(r.rules[name]);
        HasEncryptionIff(r.rules[name]);
        var path: seq<string> :| EncryptedAt(r.rules[name], path);
        AtCons(r, name, path);
        assert EncryptedAt(r, [name] + path);
      }
    }
    if path: seq<string> :| EncryptedAt(r, path) && path != [] {
      assert EncryptedAt(r.rules[path[0]], path[1..]);
      HasEncryptionIff(r.rules[path[0]]);
    }
  }

  /** The rule at a path is a role, or lets an author or a recipient read; from the second level on such a reader
      must be one of another record. The path starts `depth` levels below the top. */
  predicate SharedAt(r: RuleSet, path: seq<string>, depth: nat) {
    && At(r, path).Some?
    && var rule := At(r, path).value;
    || rule.role == Some(true)
    || exists a <- rule.actions ::
         a.WhoAction? && a.who in {Author, Recipient} && a.canRead && (depth + |path| >= 2 ==> a.of != None)
  }

  lemma {:induction false} MultiPartyBelowIff(r: RuleSet, depth: nat)
    requires depth >= 1
    ensures RuleSetAllowsMultiParty(r, depth >= 2) <==> exists path: seq<string> :: SharedAt(r, path, depth)
    decreases r
  {
    if RuleSetAllowsMultiParty(r, depth >= 2) {
      if name :| name in r.rules && RuleSetAllowsMultiParty(r.rules[name], true) {
        MultiPartyBelowIff(r.rules[name], depth + 1);
        var path: seq<string> :| SharedAt(r.rules[name], path, depth + 1);
        AtCons(r, name, path);
        assert SharedAt(r, [name] + path, depth);
      } else {
        assert SharedAt(r, [], depth);
      }
    }
    if path: seq<string> :| SharedAt(r, path, depth) && path != [] {
      assert SharedAt(r.rules[path[0]], path[1..], depth + 1);
      MultiPartyBelowIff(r.rules[path[0]], depth + 1);
    }
  }

  /** A protocol allows several parties exactly when some rule in its structure is shared. */
  lemma MultiPartyIff(d: Definition)
    ensures AllowsMultiParty(d) <==> exists path: seq<string> :: path != [] && SharedAt(Root(d), path, 0)
  {
    hide RuleSetAllowsMultiParty;
    if name :| name in d.structure && RuleSetAllowsMultiParty(d.structure[name], false) {
      MultiPartyBelowIff(d.structure[name], 1);
      var path: seq<string> :| SharedAt(d.structure[name], path, 1);
      AtCons(Root(d), name, path);
      assert SharedAt(Root(d), [name] + path, 0);
    }
    if path: seq<string> :| path != [] && SharedAt(Root(d), path, 0) {
      assert SharedAt(d.structure[path[0]], path[1..], 1);
      MultiPartyBelowIff(d.structure[path[0]], 1);
    }
  }

  /** Encryption is required exactly when some type says so. */
  lemma RequiresEncryptionIff(d: Definition)
    ensures RequiresEncryption(d) <==> Some(true) in d.encryptionRequired.Values
  {
  }

  /** A path can be written at all, and then as its names joined with slashes, exactly when no name is empty
      or has a slash. */
  lemma PathReadBackIff(path: seq<string>)
    ensures PathOf(Join(path, '/')) == path <==> forall i :: 0 <= i < |path| ==> path[i] != "" && '/' !in path[i]
    ensures (exists text: string :: PathOf(text) == path)
            <==> forall i :: 0 <= i < |path| ==> path[i] != "" && '/' !in path[i]
  {
    if forall i :: 0 <= i < |path| ==> path[i] != "" && '/' !in path[i] {
      JoinedReadsBack(path);
    }
    if text: string :| PathOf(text) == path {
      WrittenNames(text);
    }
  }

  lemma JoinedReadsBack(path: seq<string>)
    requires forall i :: 0 <= i < |path| ==> path[i] != "" && '/' !in path[i]
    ensures PathOf(Join(path, '/')) == path
  {
    if path == [] {
      assert Split("", '/') == [""];
    } else {
      hide Join, Split;
      SplitJoin(path, '/');
      NonEmptyKeeps(path);
    }
  }

  lemma WrittenNames(text: string)
    ensures forall i :: 0 <= i < |PathOf(text)| ==> PathOf(text)[i] != "" && '/' !in PathOf(text)[i]
  {
    hide Split;
    var path := PathOf(text);
    NonEmptyOf(Split(text, '/'));
    forall i | 0 <= i < |path|
      ensures path[i] != "" && '/' !in path[i]
    {
      assert path[i] in path;
    }
  }

  /** A name with a slash cannot be written: the path of `a/b` alone reads as two names. */
  lemma SlashInName()
    ensures PathOf(Join(["a/b"], '/')) == ["a", "b"]
  {
    SplitAppend("a", '/', "b");
    assert "a" + ['/'] + "b" == "a/b";
  }

  lemma {:induction false} NonEmptyKeeps(segments: seq<string>)
    requires forall i :: 0 <= i < |segments| ==> segments[i] != ""
    ensures NonEmpty(segments) == segments
  {
    if segments != [] {
      NonEmptyKeeps(segments[1..]);
    }
  }

  lemma {:induction false} NonEmptyOf(segments: seq<string>)
    ensures forall s <- NonEmpty(segments) :: s != "" && s in segments
  {
    if segments != [] {
      NonEmptyOf(segments[1..]);
    }
  }
}

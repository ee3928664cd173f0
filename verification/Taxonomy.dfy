/** The predicate taxonomy: canonical names, aliases, multiplicity, and the key built from them. */
module Taxonomy {
  import opened Text

  datatype Multiplicity = One | Many

  const CIRCUMSTANCES: map<string, Multiplicity> := map[
    "employer" := One, "job_title" := One, "work_field" := One, "previous_employer" := Many,
    "lives_in" := One, "lived_in" := Many, "from" := One, "timezone" := One,
    "name" := One, "age" := One
  ]

  const RELATIONS: map<string, Multiplicity> := map[
    "partner" := One, "family_member" := Many, "friend" := Many, "coworker" := Many,
    "owns_pet" := Many, "pet_name" := Many, "pet_type" := Many,
    "dietary_restriction" := Many, "allergic_to" := Many, "medical_condition" := Many
  ]

  const TASTES: map<string, Multiplicity> := map[
    "likes" := Many, "dislikes" := Many, "prefers" := Many, "avoids" := Many, "hobby" := Many,
    "communication_style" := One,
    "opinion" := Many,
    "attended" := Many, "did" := Many
  ]

  /** The indexed predicates. */
  const INDEX := CIRCUMSTANCES + RELATIONS + TASTES

  /** The alias table, grouped by target: the canonical spelling of an alias, or "" for a word that is none. */
  function AliasOf(p: string): string {
    if p in {"works_at", "work_at", "works_for", "employed_by", "company", "current_company",
      "current_employer"} then "employer"
    else if p in {"job", "role", "position", "title"} then "job_title"
    else if p in {"lives", "lives_at", "live_in", "current_city", "city", "location", "based_in"} then
      "lives_in"
    else if p in {"moved_from", "used_to_live_in"} then "lived_in"
    else if p in {"originally_from", "hometown"} then "from"
    else if p in {"spouse", "husband", "wife", "boyfriend", "girlfriend"} then "partner"
    else if p in {"has_pet", "pet", "dog", "cat"} then "owns_pet"
    else if p in {"diet", "is_vegetarian", "is_vegan"} then "dietary_restriction"
    else if p in {"allergy"} then "allergic_to"
    else if p in {"loves", "love", "enjoys", "fan_of"} then "likes"
    else if p in {"hates", "dislike", "not_a_fan_of"} then "dislikes"
    else if p in {"prefer"} then "prefers"
    else if p in {"thinks", "believes", "view_on", "opinion_on"} then "opinion"
    else ""
  }

  const OTHER := "other:"

  function RemovePrefix(s: string, prefix: string): string {
    if prefix <= s then s[|prefix|..] else s
  }

  /** The cleaned-up spelling that is looked up in the tables. */
  function Spelling(raw: string): string {
    RemovePrefix(Replace(Replace(Lower(Strip(raw)), ' ', '_'), '-', '_'), OTHER)
  }

  function Cut(s: string): string {
    if |s| <= 48 then s else s[..48]
  }

  function Normalize(raw: string): string {
    if raw == "" then OTHER + "unknown"
    else
      var p := Spelling(raw);
      if p in INDEX then p
      else if AliasOf(p) != "" then AliasOf(p)
      else OTHER + Cut(p)
  }

  function MultiplicityOf(pred: string): Multiplicity {
    if pred in INDEX then INDEX[pred] else One
  }

  /** The generated column `key` of the memories table. */
  function KeyOf(subject: string, pred: string): string {
    subject + "::" + pred
  }

  /** Lower case, without blanks or dashes. */
  predicate Plain(s: string) {
    forall i | 0 <= i < |s| :: s[i] == LowerChar(s[i]) && s[i] != ' ' && s[i] != '-'
  }

  predicate EndsInSpace(s: string) {
    s != "" && IsSpace(s[|s| - 1])
  }

  /** The values of `Normalize`: an indexed predicate, or `other:` and at most 48 plain characters that are no name. */
  predicate IsNormal(p: string) {
    p in INDEX || (OTHER <= p && IsRest(p[|OTHER|..]))
  }

  /** What may follow `other:`; only a cut can leave white space at the end. */
  predicate IsRest(c: string) {
    Plain(c) && |c| <= 48 && c !in INDEX && AliasOf(c) == "" && (|c| < 48 ==> !EndsInSpace(c))
  }

  predicate IsNameChar(c: char) {
    'a' <= c <= 'z' || c == '_'
  }

  /** Shape of every name in the tables. */
  predicate IsName(s: string) {
    3 <= |s| < 48 && forall i :: 0 <= i < |s| ==> IsNameChar(s[i])
  }

  lemma CircumstanceNames(p: string)
    requires p in CIRCUMSTANCES
    ensures IsName(p)
  {
  }

  lemma RelationNames(p: string)
    requires p in RELATIONS
    ensures IsName(p)
  {
  }

  lemma TasteNames(p: string)
    requires p in TASTES
    ensures IsName(p)
  {
  }

  lemma IndexNames(p: string)
    requires p in INDEX
    ensures IsName(p)
  {
    hide IsName;
    if p in CIRCUMSTANCES {
      CircumstanceNames(p);
    } else if p in RELATIONS {
      RelationNames(p);
    } else {
      TasteNames(p);
    }
  }

  lemma AliasesAreShort(p: string)
    requires AliasOf(p) != ""
    ensures 1 <= |p| < 48
  {
  }

  lemma AliasTargets(p: string)
    requires AliasOf(p) != ""
    ensures AliasOf(p) in INDEX
  {
    assert AliasOf(p) in CIRCUMSTANCES || AliasOf(p) in RELATIONS || AliasOf(p) in TASTES by {
      AliasTargetList(p);
      TargetsIndexed();
    }
  }

  const TARGETS := {"employer", "job_title", "lives_in", "lived_in", "from"}
  const MORE_TARGETS := {"partner", "owns_pet", "dietary_restriction", "allergic_to"}
  const TASTE_TARGETS := {"likes", "dislikes", "prefers", "opinion"}

  lemma AliasTargetList(p: string)
    requires AliasOf(p) != ""
    ensures AliasOf(p) in TARGETS || AliasOf(p) in MORE_TARGETS || AliasOf(p) in TASTE_TARGETS
  {
    hide INDEX, CIRCUMSTANCES, RELATIONS, TASTES;
  }

  lemma TargetsIndexed()
    ensures TARGETS <= CIRCUMSTANCES.Keys && MORE_TARGETS <= RELATIONS.Keys && TASTE_TARGETS <= TASTES.Keys
  {
  }

  /** What is known of a spelling that was looked up: no capitals, blanks or dashes, no white space at its end. */
  predicate IsSpelling(s: string) {
    Plain(s) && !EndsInSpace(s)
  }

  lemma SpellingMeaning(raw: string)
    ensures IsSpelling(Spelling(raw))
  {
    StripIsStripped(raw);
  }

  /** Cleaning up `other:` followed by plain text only strips white space at the end. */
  lemma SpellingOfOther(s: string)
    requires Plain(s)
    ensures !EndsInSpace(s) ==> Spelling(OTHER + s) == s
    ensures EndsInSpace(s) ==> |Spelling(OTHER + s)| < |s|
  {
    var t := OTHER + s;
    var u := Strip(t);
    assert StripLeft(t) == t;
    StripRightMeaning(t);
    StripIsStripped(t);
    assert u <= t;
    assert forall i :: 0 <= i < |t| ==> t[i] == LowerChar(t[i]) && t[i] != ' ' && t[i] != '-';
    assert Replace(Replace(Lower(u), ' ', '_'), '-', '_') == u;
    if |u| < |OTHER| {
      StripKeepsOther(s);
    }
  }

  lemma {:induction false} StripKeepsOther(s: string)
    ensures |StripRight(OTHER + s)| >= |OTHER|
  {
    var t := OTHER + s;
    if s != "" && IsSpace(s[|s| - 1]) {
      assert t[..|t| - 1] == OTHER + s[..|s| - 1];
      StripKeepsOther(s[..|s| - 1]);
    }
  }

  lemma NamesAreNotOther(s: string)
    requires IsName(s)
    ensures !(OTHER <= s)
  {
    assert |s| > 5 ==> IsNameChar(s[5]);
  }

  /** Names of the tables are their own spelling. */
  lemma SpellingOfName(s: string)
    requires IsName(s)
    ensures Spelling(s) == s
  {
    NamesAreNotOther(s);
    StripIsStripped(s);
    assert Replace(Replace(Lower(s), ' ', '_'), '-', '_') == s;
  }

  /** When the cut to 48 characters leaves white space at the end. */
  predicate CutLeavesSpace(raw: string) {
    var p := Spelling(raw);
    p !in INDEX && AliasOf(p) == "" && |p| > 48 && IsSpace(p[47])
  }

  /** Normalising twice is normalising once, except exactly when the cut leaves white space at the end. */
  lemma NormalizeIdempotentIff(raw: string)
    ensures Normalize(Normalize(raw)) == Normalize(raw) <==> !CutLeavesSpace(raw)
  {
    var p := Spelling(raw);
    SpellingMeaning(raw);
    if raw == "" {
      SpellingOfOther("unknown");
      assert Spelling("") == "";
      assert Spelling(Normalize("")) == "unknown";
      UnknownIsNoName();
    } else if p in INDEX {
      IndexNames(p);
      SpellingOfName(p);
    } else if AliasOf(p) != "" {
      AliasTargets(p);
      IndexNames(AliasOf(p));
      SpellingOfName(AliasOf(p));
    } else {
      OtherAgain(p);
    }
  }

  lemma OtherAgain(p: string)
    requires IsSpelling(p) && p !in INDEX && AliasOf(p) == ""
    ensures Normalize(OTHER + Cut(p)) == OTHER + Cut(p) <==> !(|p| > 48 && IsSpace(p[47]))
  {
    var c := Cut(p);
    SpellingOfOther(c);
    var q := Spelling(OTHER + c);
    if c == p || !IsSpace(c[|c| - 1]) {
      assert q == c;
      if c in INDEX {
        IndexNames(c);
      } else if AliasOf(c) != "" {
        AliasesAreShort(c);
      }
    } else if q in INDEX {
      IndexNames(q);
      assert Normalize(OTHER + c) == q;
    } else if AliasOf(q) != "" {
      AliasTargets(q);
      IndexNames(AliasOf(q));
    }
  }

  lemma UnknownIsNoName()
    ensures "unknown" !in INDEX && AliasOf("unknown") == ""
  {
    hide INDEX, CIRCUMSTANCES, RELATIONS, TASTES, AliasOf;
    UnknownNotIndexed();
    UnknownNoAlias();
  }

  lemma UnknownNotIndexed()
    ensures "unknown" !in INDEX
  {
  }

  lemma UnknownNoAlias()
    ensures AliasOf("unknown") == ""
  {
    hide INDEX, CIRCUMSTANCES, RELATIONS, TASTES;
  }

  /** The exception occurs: 47 letters, a tab and one more letter. */
  lemma CutLeavesSpaceAt(raw: string)
    requires |raw| == 49 && raw[47] == '\t' && forall i | 0 <= i < 49 && i != 47 :: raw[i] == 'a'
    ensures CutLeavesSpace(raw) && Normalize(Normalize(raw)) != Normalize(raw)
  {
    hide INDEX, CIRCUMSTANCES, RELATIONS, TASTES, AliasOf;
    StripIsStripped(raw);
    assert Replace(Replace(Lower(raw), ' ', '_'), '-', '_') == raw;
    assert raw[0] != OTHER[0];
    assert Spelling(raw) == raw;
    if raw in INDEX {
      IndexNames(raw);
    }
    if AliasOf(raw) != "" {
      AliasesAreShort(raw);
    }
    NormalizeIdempotentIff(raw);
  }

  lemma NormalizeIsNormal(raw: string)
    ensures IsNormal(Normalize(raw))
  {
    hide INDEX, AliasOf, Spelling;
    var p := Spelling(raw);
    SpellingMeaning(raw);
    if raw == "" {
      UnknownIsNoName();
      assert Normalize(raw)[|OTHER|..] == "unknown";
    } else if p !in INDEX && AliasOf(p) != "" {
      AliasTargets(p);
    } else if p !in INDEX {
      assert Normalize(raw)[|OTHER|..] == Cut(p);
      LongIsNoName(Cut(p));
    }
  }

  lemma LongIsNoName(p: string)
    ensures |p| >= 48 ==> p !in INDEX && AliasOf(p) == ""
  {
    hide INDEX, AliasOf;
    if p in INDEX {
      IndexNames(p);
    }
    if AliasOf(p) != "" {
      AliasesAreShort(p);
    }
  }

  /** Every such predicate is the value of some raw string. */
  lemma NormalIsAttained(p: string) returns (raw: string)
    requires IsNormal(p)
    ensures Normalize(raw) == p
  {
    hide INDEX, AliasOf, Spelling;
    if p in INDEX {
      raw := p;
      IndexNames(p);
      SpellingOfName(p);
    } else {
      var c := p[|OTHER|..];
      var s := if |c| < 48 then c else c + "x";
      raw := OTHER + s;
      SpellingOfOther(s);
      LongIsNoName(s);
      assert p == OTHER + c && Cut(s) == c;
    }
  }

  /** Exactly the values of the function. */
  lemma IsNormalIff(p: string)
    ensures IsNormal(p) <==> exists raw :: Normalize(raw) == p
  {
    hide IsNormal, Normalize;
    if IsNormal(p) {
      var raw := NormalIsAttained(p);
    }
    if raw :| Normalize(raw) == p {
      NormalizeIsNormal(raw);
    }
  }

  /** On strings whose only white space is the blank, normalising is idempotent. */
  lemma NormalizeIdempotent(raw: string)
    requires forall c :: c in raw && IsSpace(c) ==> c == ' '
    ensures Normalize(Normalize(raw)) == Normalize(raw)
  {
    NormalizeIdempotentIff(raw);
    SpellingHasNoSpace(raw);
  }

  lemma SpellingHasNoSpace(raw: string)
    requires forall c :: c in raw && IsSpace(c) ==> c == ' '
    ensures forall i :: 0 <= i < |Spelling(raw)| ==> !IsSpace(Spelling(raw)[i])
  {
    StripLeftMeaning(raw);
    StripRightMeaning(StripLeft(raw));
    var u := Strip(raw);
    var v := Replace(Replace(Lower(u), ' ', '_'), '-', '_');
    forall i | 0 <= i < |v| ensures !IsSpace(v[i]) {
      assert u[i] in raw;
    }
  }

  const MANY_CIRCUMSTANCES := {"previous_employer", "lived_in"}
  const MANY_RELATIONS := {"family_member", "friend", "coworker", "owns_pet", "pet_name", "pet_type",
                           "dietary_restriction", "allergic_to", "medical_condition"}
  const MANY_TASTES := {"likes", "dislikes", "prefers", "avoids", "hobby", "opinion", "attended", "did"}

  lemma CircumstancesMany(p: string)
    ensures p in CIRCUMSTANCES && CIRCUMSTANCES[p] == Many <==> p in MANY_CIRCUMSTANCES
  {
  }

  lemma RelationsMany(p: string)
    ensures p in RELATIONS && RELATIONS[p] == Many <==> p in MANY_RELATIONS
    ensures p in RELATIONS && RELATIONS[p] == One <==> p == "partner"
  {
  }

  lemma TastesMany(p: string)
    ensures p in TASTES && TASTES[p] == Many <==> p in MANY_TASTES
    ensures p in TASTES && TASTES[p] == One <==> p == "communication_style"
  {
  }

  lemma OneInTwo()
    ensures "partner" !in MANY_CIRCUMSTANCES
    ensures "communication_style" !in MANY_CIRCUMSTANCES && "communication_style" !in MANY_RELATIONS
  {
  }

  /** The predicates that may hold of several objects at once; with every other one a new object replaces the old. */
  lemma ManyValuedIff(p: string)
    ensures MultiplicityOf(p) == Many <==> p in MANY_CIRCUMSTANCES + MANY_RELATIONS + MANY_TASTES
  {
    hide CIRCUMSTANCES, RELATIONS, TASTES, MANY_CIRCUMSTANCES, MANY_RELATIONS, MANY_TASTES;
    CircumstancesMany(p);
    RelationsMany(p);
    TastesMany(p);
    OneInTwo();
  }

  // ---------------------------------------------------------------- keys

  /**
   * The subject `b` is `a` with `::other`, or with `::other:` and up to 43 plain characters: what is left of
   * the 48 after another `::` and a predicate, of which the shortest have three letters.
   */
  predicate Extends(a: string, b: string) {
    || b == a + "::other"
    || (a + "::" + OTHER <= b && |b| <= |a| + 8 + 43 && Plain(b[|a| + 8..]))
  }

  /** Two subjects with normalised predicates under one key. */
  predicate Clash(a: string, p: string, b: string, q: string) {
    IsNormal(p) && IsNormal(q) && KeyOf(a, p) == KeyOf(b, q)
  }

  lemma ClashExtends(a: string, p: string, b: string, q: string)
    requires Clash(a, p, b, q) && |a| < |b|
    ensures Extends(a, b)
  {
    hide INDEX, AliasOf, Plain, IsNormal;
    NormalStart(p);
    LongerSubject(a, p, b, q);
    var rest := b[|a| + 2..];
    ColonInNormal(p, |rest|);
    if |rest| > 5 {
      var r, c := rest[|OTHER|..], p[|OTHER|..];
      assert rest == OTHER + r && b == a + "::" + OTHER + r;
      assert c == r + "::" + q;
      NormalRest(p);
      PlainPrefix(c, |r|);
      NormalLength(q);
      assert b[|a| + 8..] == r && c[..|r|] == r;
    } else {
      assert rest == "other";
    }
  }

  /** The longer subject ends inside the other's predicate. */
  lemma LongerSubject(a: string, p: string, b: string, q: string)
    requires KeyOf(a, p) == KeyOf(b, q) && |a| < |b| && p != "" && p[0] != ':'
    ensures a + "::" <= b && b == a + "::" + b[|a| + 2..]
    ensures p == b[|a| + 2..] + "::" + q
  {
    var k := KeyOf(a, p);
    assert k[|a|..|a| + 2] == "::" && k[|a| + 2..] == p;
    assert k[..|b|] == b && k[|b|..|b| + 2] == "::" && k[|b| + 2..] == q;
    assert k[|a| + 2] == p[0] && k[|b| + 1] == ':';
    assert b[..|a| + 2] == k[..|a| + 2] == a + "::";
  }

  lemma NormalRest(p: string)
    requires IsNormal(p) && p !in INDEX
    ensures OTHER <= p && Plain(p[|OTHER|..]) && |p| <= |OTHER| + 48
  {
  }

  lemma PlainPrefix(s: string, n: nat)
    requires Plain(s) && n <= |s|
    ensures Plain(s[..n])
  {
  }

  lemma NormalLength(p: string)
    requires IsNormal(p)
    ensures |p| >= 3
  {
    hide INDEX;
    if p in INDEX {
      IndexNames(p);
    }
  }

  /** The first colon of a normalised predicate is that of `other:`. */
  lemma ColonInNormal(p: string, i: nat)
    requires IsNormal(p) && i < |p| && p[i] == ':'
    ensures OTHER <= p && p !in INDEX && i >= 5 && p[..5] == "other"
  {
    if p in INDEX {
      IndexNames(p);
    }
    assert OTHER == "other" + ":";
    assert forall j | 0 <= j < 6 :: p[j] == OTHER[j];
  }

  /** And then the clash can be one of a single-valued with a many-valued predicate. */
  lemma ExtendsClashes(a: string, b: string) returns (p: string)
    requires Extends(a, b)
    ensures Clash(a, p, b, "did") && MultiplicityOf(p) == One && MultiplicityOf("did") == Many
  {
    hide INDEX, AliasOf, IsRest, MultiplicityOf, KeyOf;
    var r := if b == a + "::other" then ":did" else b[|a| + 8..] + "::did";
    p := OTHER + r;
    DidIsMany();
    OtherIsOne(r);
    assert p[|OTHER|..] == r;
    if b == a + "::other" {
      RestOfClash("", r);
      BareKey(a);
    } else {
      RestOfClash(b[|a| + 8..], r);
      DeedKey(a, b[|a| + 8..], b);
    }
  }

  lemma BareKey(a: string)
    ensures KeyOf(a, OTHER + ":did") == KeyOf(a + "::other", "did")
  {
    assert OTHER + ":did" == "other::did";
    assert a + "::" + "other::did" == a + "::other" + "::did";
  }

  lemma DeedKey(a: string, r: string, b: string)
    requires a + "::" + OTHER <= b && b[|a| + 8..] == r
    ensures KeyOf(a, OTHER + (r + "::did")) == KeyOf(b, "did")
  {
    assert b == a + "::" + OTHER + r;
    assert a + "::" + (OTHER + (r + "::did")) == a + "::" + OTHER + r + "::" + "did";
  }

  lemma OtherIsOne(r: string)
    ensures MultiplicityOf(OTHER + r) == One
  {
    hide INDEX;
    OtherIsNoName(r);
  }

  lemma RestOfClash(r: string, c: string)
    requires Plain(r) && |r| <= 43 && (c == r + "::did" || c == r + ":did")
    ensures IsRest(c)
  {
    hide INDEX, AliasOf;
    DeedIsNoName(c);
  }

  lemma DeedIsNoName(c: string)
    requires |c| >= 4 && c[|c| - 4..] == ":did"
    ensures c !in INDEX && AliasOf(c) == ""
  {
    hide INDEX, AliasOf;
    assert c[|c| - 4] == ':';
    if c in INDEX {
      IndexNames(c);
    }
    NoColonInAlias(c);
  }

  lemma NoColonInAlias(c: string)
    requires |c| >= 4 && c[|c| - 4] == ':'
    ensures AliasOf(c) == ""
  {
    hide INDEX, CIRCUMSTANCES, RELATIONS, TASTES;
  }

  /** Different subjects can have one key if and only if one of them extends the other. */
  lemma KeysClashIff(a: string, b: string)
    requires a != b
    ensures (exists p, q :: Clash(a, p, b, q)) <==> Extends(a, b) || Extends(b, a)
  {
    if p, q :| Clash(a, p, b, q) {
      KeyInjective(a, p, b, q);
    }
    if Extends(a, b) {
      var p := ExtendsClashes(a, b);
    } else if Extends(b, a) {
      var p := ExtendsClashes(b, a);
      assert Clash(a, "did", b, p);
    }
  }

  /** The key determines subject and predicate among subjects that do not extend each other. */
  lemma KeyInjective(s1: string, p1: string, s2: string, p2: string)
    requires Clash(s1, p1, s2, p2)
    ensures (s1 == s2 && p1 == p2) || Extends(s1, s2) || Extends(s2, s1)
  {
    if |s1| < |s2| {
      ClashExtends(s1, p1, s2, p2);
    } else if |s2| < |s1| {
      ClashExtends(s2, p2, s1, p1);
    } else {
      assert KeyOf(s1, p1)[..|s1|] == s1 && KeyOf(s2, p2)[..|s2|] == s2;
      assert KeyOf(s1, p1)[|s1| + 2..] == p1 && KeyOf(s2, p2)[|s2| + 2..] == p2;
    }
  }

  /** A subject without `::` extends no other. */
  lemma ExtensionHasSeparator(a: string, b: string)
    requires Extends(a, b)
    ensures Contains(b, "::")
  {
    assert a + "::" <= b;
    assert "::" <= b[|a|..];
  }

  lemma NormalStart(p: string)
    requires IsNormal(p)
    ensures p != "" && p[0] != ':'
  {
    if p in INDEX {
      IndexNames(p);
    }
  }

  /** A clash as it comes about: two candidates of different multiplicity, one predicate as normalised from raw text. */
  lemma KeyCollision(p: string)
    requires p == "x::did"
    ensures Normalize(p) == OTHER + p
    ensures KeyOf("a", OTHER + p) == KeyOf("a::other:x", "did")
    ensures MultiplicityOf(OTHER + p) == One && MultiplicityOf("did") == Many
  {
    hide INDEX, CIRCUMSTANCES, RELATIONS, TASTES, AliasOf;
    StripIsStripped(p);
    assert Replace(Replace(Lower(p), ' ', '_'), '-', '_') == p;
    DeedIsNoName(p);
    OtherIsNoName(p);
    DidIsMany();
    assert KeyOf("a", OTHER + p) == "a::other:x::did";
  }

  lemma OtherIsNoName(p: string)
    ensures OTHER + p !in INDEX
  {
    if OTHER + p in INDEX {
      IndexNames(OTHER + p);
      NamesAreNotOther(OTHER + p);
    }
  }

  lemma DidIsMany()
    ensures "did" in INDEX && MultiplicityOf("did") == Many
  {
  }
}

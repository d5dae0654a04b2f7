/**
 * The model router of src/modelRouter.ts: keyword tagging, the integer
 * score, a stable descending sort and the free/paid split.
 *
 * The library it ranks is a parameter: each entry is a catalog spec plus the
 * reliability tier and the strengths the scoring reads. Each tag's regular
 * expression is an opaque predicate on the lower-cased text (`TagMatcher`).
 */
module ModelRouter {
  import opened Wrappers
  import opened Strings
  import opened AdvisorTypes

  datatype ScenarioTag = Frontend | Node | Go | Memory | Ai | Infra | General

  /** The order of the entries of `TAG_KEYWORDS`, which is the order tags are detected in. */
  const KeywordTags: seq<ScenarioTag> := [Frontend, Node, Go, Memory, Ai, Infra]

  /** A tag's position in detection order; `general` comes after all keyword tags. */
  function TagRank(t: ScenarioTag): nat
  {
    match t
    case Frontend => 0
    case Node => 1
    case Go => 2
    case Memory => 3
    case Ai => 4
    case Infra => 5
    case General => 6
  }

  /** Whether the tag's keyword pattern matches the given (lower-cased) text. */
  type TagMatcher = (ScenarioTag, string) -> bool

  /** A reliability tier; `Unrated` stands for any value the weight table lacks. */
  datatype Reliability = Platinum | Gold | Silver | Unrated

  /** An entry of the library the router ranks. */
  datatype LibraryModel = LibraryModel(spec: AdvisorModelSpec, reliability: Reliability, strengths: seq<ScenarioTag>)

  datatype ModelLineup = ModelLineup(tags: seq<ScenarioTag>, free: seq<LibraryModel>, paid: seq<LibraryModel>)

  // ---------------------------------------------------------------- tagging

  /**
   * The text the tags are detected in: `[question, context].filter(Boolean).join('\n')`,
   * so an empty question and an absent or empty context are both dropped.
   */
  function Haystack(input: ToolInput): (h: string)
    ensures input.question != "" && input.context.Some? && input.context.value != "" ==>
              h == input.question + "\n" + input.context.value
    ensures input.question != "" && !(input.context.Some? && input.context.value != "") ==>
              h == input.question
    ensures input.question == "" ==> h == (if input.context.Some? then input.context.value else "")
  {
    var q := input.question;
    assert [q][1..] == [];
    assert DropEmpty([q]) == (if q == "" then [] else [q]);
    if input.context.Some? then
      var c := input.context.value;
      assert [q, c][1..] == [c] && [c][1..] == [];
      assert DropEmpty([c]) == (if c == "" then [] else [c]);
      assert DropEmpty([q, c]) == (if q == "" then [] else [q]) + DropEmpty([c]);
      assert Join([q, c], "\n") == q + "\n" + c by {
        assert [q, c][1..] == [c];
      }
      Join(DropEmpty([q, c]), "\n")
    else
      Join(DropEmpty([q]), "\n")
  }

  /** Strictly increasing detection rank, hence no repeats. */
  predicate InTagOrder(tags: seq<ScenarioTag>)
  {
    forall i, j :: 0 <= i < j < |tags| ==> TagRank(tags[i]) < TagRank(tags[j])
  }

  /** Every rank in `tags` is below `bound`. */
  predicate RanksBelow(tags: seq<ScenarioTag>, bound: nat)
  {
    forall i :: 0 <= i < |tags| ==> TagRank(tags[i]) < bound
  }

  /**
   * The `forEach` over the keyword table: each pending tag whose pattern
   * matches is added after the tags already collected.
   */
  function CollectTags(pending: seq<ScenarioTag>, lowered: string, matches: TagMatcher, acc: seq<ScenarioTag>): (tags: seq<ScenarioTag>)
    requires InTagOrder(acc) && InTagOrder(pending)
    requires pending != [] ==> RanksBelow(acc, TagRank(pending[0]))
    ensures InTagOrder(tags)
    ensures forall t :: t in tags <==> t in acc || (t in pending && matches(t, lowered))
  {
    if pending == [] then acc
    else
      var t := pending[0];
      var acc' := if matches(t, lowered) then acc + [t] else acc;
      assert RanksBelow(acc', TagRank(t) + 1);
      assert InTagOrder(pending[1..]);
      assert pending == [t] + pending[1..];
      CollectTags(pending[1..], lowered, matches, acc')
  }
  /** The keyword tags are listed in rank order, and they are every tag but `general`. */
  lemma KeywordTagsShape()
    ensures InTagOrder(KeywordTags)
    ensures forall t :: t in KeywordTags <==> t != General
  {
    forall t | t != General ensures t in KeywordTags {
      assert KeywordTags[TagRank(t)] == t;
    }
  }

  /**
   * `detectTags`: the keyword tags whose pattern matches the lower-cased
   * text, in table order, then `general`, which both branches of the final
   * `if` add, so it is always present and last. No tag occurs twice.
   */
  function DetectTags(text: string, matches: TagMatcher): (tags: seq<ScenarioTag>)
    ensures |tags| > 0 && tags[|tags| - 1] == General
    ensures InTagOrder(tags)
    ensures forall t :: t != General ==> (t in tags <==> matches(t, ToLower(text)))
  {
    var lowered := ToLower(text);
    KeywordTagsShape();
    var found := CollectTags(KeywordTags, lowered, matches, []);
    assert RanksBelow(found, TagRank(General)) by {
      forall i | 0 <= i < |found| ensures TagRank(found[i]) < TagRank(General) {
        assert found[i] in found;
      }
    }
    found + [General]
  }

  // ---------------------------------------------------------------- scoring

  /** `RELIABILITY_WEIGHT[model.reliability] ?? 1`. */
  function ReliabilityWeight(r: Reliability): (w: nat)
    ensures 1 <= w <= 3
    ensures w == 3 <==> r == Platinum
    ensures w == 2 <==> r == Gold
  {
    match r
    case Platinum => 3
    case Gold => 2
    case Silver => 1
    case Unrated => 1
  }

  /** `tags.reduce((acc, tag) => acc + (strengths.includes(tag) ? 4 : 0), acc0)`. */
  function MatchScoreFrom(acc: nat, strengths: seq<ScenarioTag>, tags: seq<ScenarioTag>): nat
    decreases |tags|
  {
    if tags == [] then acc
    else MatchScoreFrom(acc + (if tags[0] in strengths then 4 else 0), strengths, tags[1..])
  }

  /** The detected tags the model declares as strengths, in detection order. */
  function MatchedTags(strengths: seq<ScenarioTag>, tags: seq<ScenarioTag>): (m: seq<ScenarioTag>)
    ensures |m| <= |tags|
    ensures forall t :: t in m <==> t in tags && t in strengths
    decreases |tags|
  {
    if tags == [] then []
    else
      assert forall t :: t in tags <==> t == tags[0] || t in tags[1..];
      (if tags[0] in strengths then [tags[0]] else []) + MatchedTags(strengths, tags[1..])
  }

  /** Filtering keeps detection order, so no matched tag occurs twice and `|MatchedTags|` counts them. */
  lemma {:induction false} MatchedTagsInOrder(strengths: seq<ScenarioTag>, tags: seq<ScenarioTag>)
    requires InTagOrder(tags)
    ensures InTagOrder(MatchedTags(strengths, tags))
    decreases |tags|
  {
    if tags != [] {
      var rest := MatchedTags(strengths, tags[1..]);
      assert InTagOrder(tags[1..]);
      MatchedTagsInOrder(strengths, tags[1..]);
      forall i | 0 <= i < |rest| ensures TagRank(tags[0]) < TagRank(rest[i]) {
        assert rest[i] in tags[1..];
        var j :| 0 <= j < |tags[1..]| && tags[1..][j] == rest[i];
        assert tags[j + 1] == rest[i];
      }
      var head := if tags[0] in strengths then [tags[0]] else [];
      var m := head + rest;
      assert MatchedTags(strengths, tags) == m;
      forall i, j | 0 <= i < j < |m| ensures TagRank(m[i]) < TagRank(m[j]) {
        if i < |head| {
          assert m[i] == tags[0] && m[j] == rest[j - |head|];
        } else {
          assert m[i] == rest[i - |head|] && m[j] == rest[j - |head|];
        }
      }
    }
  }

  /** The fold adds 4 per detected tag the model is strong in. */
  lemma {:induction false} MatchScoreCounts(acc: nat, strengths: seq<ScenarioTag>, tags: seq<ScenarioTag>)
    ensures MatchScoreFrom(acc, strengths, tags) == acc + 4 * |MatchedTags(strengths, tags)|
    decreases |tags|
  {
    if tags != [] {
      MatchScoreCounts(acc + (if tags[0] in strengths then 4 else 0), strengths, tags[1..]);
    }
  }

  /**
   * `scoreModel`: the match score plus the reliability weight plus 1 for a
   * free model; hence at least 1.
   */
  function Score(model: LibraryModel, tags: seq<ScenarioTag>): (s: nat)
    ensures s >= ReliabilityWeight(model.reliability) + (if model.spec.isFree then 1 else 0)
    ensures s >= 1
  {
    MatchScoreFrom(0, model.strengths, tags) + ReliabilityWeight(model.reliability)
    + (if model.spec.isFree then 1 else 0)
  }

  /**
   * The score in closed form: 4 per detected tag among the model's
   * strengths, plus the weight, plus the free bonus, and so at most 4 per
   * tag plus 4.
   */
  lemma ScoreFormula(model: LibraryModel, tags: seq<ScenarioTag>)
    ensures Score(model, tags) == 4 * |MatchedTags(model.strengths, tags)|
              + ReliabilityWeight(model.reliability) + (if model.spec.isFree then 1 else 0)
    ensures 1 <= Score(model, tags) <= 4 * |tags| + 4
  {
    MatchScoreCounts(0, model.strengths, tags);
  }

  // ---------------------------------------------------------------- ranking

  /** Non-increasing score. */
  predicate SortedByScore(s: seq<LibraryModel>, tags: seq<ScenarioTag>)
  {
    forall i, j :: 0 <= i < j < |s| ==> Score(s[i], tags) >= Score(s[j], tags)
  }

  /** The models of `s` with score `v`, in the order of `s`. */
  function WithScore(s: seq<LibraryModel>, tags: seq<ScenarioTag>, v: int): seq<LibraryModel>
  {
    if s == [] then []
    else (if Score(s[0], tags) == v then [s[0]] else []) + WithScore(s[1..], tags, v)
  }

  /** Place `x` in front of the first model it scores no lower than (so after every higher one). */
  function Insert(x: LibraryModel, s: seq<LibraryModel>, tags: seq<ScenarioTag>): (r: seq<LibraryModel>)
    ensures multiset(r) == multiset(s) + multiset{x}
  {
    if s == [] || Score(x, tags) >= Score(s[0], tags) then [x] + s
    else
      assert s == [s[0]] + s[1..];
      [s[0]] + Insert(x, s[1..], tags)
  }

  /** The first model of a sorted list scores at least as high as any model in it. */
  lemma SortedHeadMax(s: seq<LibraryModel>, tags: seq<ScenarioTag>)
    requires SortedByScore(s, tags) && s != []
    ensures forall m :: m in s ==> Score(m, tags) <= Score(s[0], tags)
  {
    forall m | m in s ensures Score(m, tags) <= Score(s[0], tags) {
      var i :| 0 <= i < |s| && s[i] == m;
    }
  }

  /** A model scoring at least as high as every model of a sorted list can head it. */
  lemma SortedCons(h: LibraryModel, t: seq<LibraryModel>, tags: seq<ScenarioTag>)
    requires SortedByScore(t, tags)
    requires forall m :: m in t ==> Score(m, tags) <= Score(h, tags)
    ensures SortedByScore([h] + t, tags)
  {
    var r := [h] + t;
    forall i, j | 0 <= i < j < |r| ensures Score(r[i], tags) >= Score(r[j], tags) {
      assert r[j] == t[j - 1];
      if i > 0 {
        assert r[i] == t[i - 1];
      }
    }
  }

  /** Inserting into a sorted list keeps it sorted. */
  lemma {:induction false} InsertSorted(x: LibraryModel, s: seq<LibraryModel>, tags: seq<ScenarioTag>)
    requires SortedByScore(s, tags)
    ensures SortedByScore(Insert(x, s, tags), tags)
  {
    if s == [] || Score(x, tags) >= Score(s[0], tags) {
      if s != [] {
        SortedHeadMax(s, tags);
      }
      SortedCons(x, s, tags);
    } else {
      var rest := Insert(x, s[1..], tags);
      InsertSorted(x, s[1..], tags);
      SortedHeadMax(s, tags);
      forall m | m in rest ensures Score(m, tags) <= Score(s[0], tags) {
        assert m in multiset(rest);
        if m != x {
          assert m in multiset(s[1..]);
          assert m in s;
        }
      }
      SortedCons(s[0], rest, tags);
    }
  }

  /** Inserting `x` adds it to the models of its own score, ahead of them, and changes no other score's list. */
  lemma {:induction false} InsertWithScore(x: LibraryModel, s: seq<LibraryModel>, tags: seq<ScenarioTag>, v: int)
    ensures WithScore(Insert(x, s, tags), tags, v) == (if Score(x, tags) == v then [x] else []) + WithScore(s, tags, v)
  {
    if s == [] || Score(x, tags) >= Score(s[0], tags) {
      assert ([x] + s)[1..] == s;
    } else {
      var rest := Insert(x, s[1..], tags);
      InsertWithScore(x, s[1..], tags, v);
      assert ([s[0]] + rest)[1..] == rest;
    }
  }

  /**
   * `rankModels`: a copy of the library sorted by descending score with a
   * stable sort. The result is a permutation of the library, its scores do
   * not increase, and models of equal score keep their library order.
   */
  function RankModels(library: seq<LibraryModel>, tags: seq<ScenarioTag>): (r: seq<LibraryModel>)
    ensures multiset(r) == multiset(library)
    ensures SortedByScore(r, tags)
    ensures forall v :: WithScore(r, tags, v) == WithScore(library, tags, v)
  {
    if library == [] then []
    else
      var rest := RankModels(library[1..], tags);
      assert library == [library[0]] + library[1..];
      InsertSorted(library[0], rest, tags);
      forall v ensures WithScore(Insert(library[0], rest, tags), tags, v) == WithScore(library, tags, v) {
        InsertWithScore(library[0], rest, tags, v);
      }
      Insert(library[0], rest, tags)
  }

  /** The first model of a list heads the list of models with its score. */
  lemma WithScoreHead(s: seq<LibraryModel>, tags: seq<ScenarioTag>)
    requires s != []
    ensures WithScore(s, tags, Score(s[0], tags)) == [s[0]] + WithScore(s[1..], tags, Score(s[0], tags))
  {
  }

  /** Only members of `s` with score `v` are listed. */
  lemma {:induction false} WithScoreMembers(s: seq<LibraryModel>, tags: seq<ScenarioTag>, v: int)
    ensures forall m :: m in WithScore(s, tags, v) ==> m in s && Score(m, tags) == v
  {
    if s != [] {
      WithScoreMembers(s[1..], tags, v);
    }
  }

  /** If `t` lists the head of `s` among its models of that score, `t`'s head scores no lower. */
  lemma HeadScoreBound(s: seq<LibraryModel>, t: seq<LibraryModel>, tags: seq<ScenarioTag>)
    requires SortedByScore(t, tags) && s != [] && t != []
    requires WithScore(s, tags, Score(s[0], tags)) == WithScore(t, tags, Score(s[0], tags))
    ensures Score(s[0], tags) <= Score(t[0], tags)
  {
    var a := Score(s[0], tags);
    WithScoreHead(s, tags);
    WithScoreMembers(t, tags, a);
    assert WithScore(t, tags, a)[0] == s[0];
    assert s[0] in t;
    SortedHeadMax(t, tags);
  }

  /** Two sorted lists with the same models per score start with the same model. */
  lemma SameHead(s: seq<LibraryModel>, t: seq<LibraryModel>, tags: seq<ScenarioTag>)
    requires SortedByScore(s, tags) && SortedByScore(t, tags) && s != [] && t != []
    requires WithScore(s, tags, Score(s[0], tags)) == WithScore(t, tags, Score(s[0], tags))
    requires WithScore(s, tags, Score(t[0], tags)) == WithScore(t, tags, Score(t[0], tags))
    ensures s[0] == t[0]
  {
    HeadScoreBound(s, t, tags);
    HeadScoreBound(t, s, tags);
    WithScoreHead(s, tags);
    WithScoreHead(t, tags);
    assert WithScore(s, tags, Score(s[0], tags))[0] == s[0];
  }

  /** With equal heads, the tails have the same models per score too. */
  lemma SameTails(s: seq<LibraryModel>, t: seq<LibraryModel>, tags: seq<ScenarioTag>)
    requires s != [] && t != [] && s[0] == t[0]
    requires forall v :: WithScore(s, tags, v) == WithScore(t, tags, v)
    ensures forall v :: WithScore(s[1..], tags, v) == WithScore(t[1..], tags, v)
  {
    forall v ensures WithScore(s[1..], tags, v) == WithScore(t[1..], tags, v) {
      var x, y := WithScore(s[1..], tags, v), WithScore(t[1..], tags, v);
      if Score(s[0], tags) == v {
        assert WithScore(s, tags, v) == [s[0]] + x && WithScore(t, tags, v) == [s[0]] + y;
        assert ([s[0]] + x)[1..] == x && ([s[0]] + y)[1..] == y;
      } else {
        assert WithScore(s, tags, v) == x && WithScore(t, tags, v) == y;
      }
    }
  }

  /**
   * A sorted list whose models of each score appear in the same order as in
   * another sorted list is that list: the stable descending order is unique,
   * so `RankModels` is the only result a stable sort can produce.
   */
  lemma {:induction false} RankingUnique(s: seq<LibraryModel>, t: seq<LibraryModel>, tags: seq<ScenarioTag>)
    requires SortedByScore(s, tags) && SortedByScore(t, tags)
    requires forall v :: WithScore(s, tags, v) == WithScore(t, tags, v)
    ensures s == t
    decreases |s| + |t|
  {
    if s == [] && t != [] {
      WithScoreHead(t, tags);
      assert false;
    } else if s != [] && t == [] {
      WithScoreHead(s, tags);
      assert false;
    } else if s != [] {
      SameHead(s, t, tags);
      SameTails(s, t, tags);
      assert SortedByScore(s[1..], tags) && SortedByScore(t[1..], tags);
      RankingUnique(s[1..], t[1..], tags);
      assert s == [s[0]] + s[1..] && t == [t[0]] + t[1..];
    }
  }

  // ---------------------------------------------------------------- lineup

  /** The models of `s` whose `isFree` flag is `free`, in order (`filter`). */
  function Tier(s: seq<LibraryModel>, free: bool): (r: seq<LibraryModel>)
    ensures forall i :: 0 <= i < |r| ==> r[i].spec.isFree == free
    ensures |r| <= |s|
  {
    if s == [] then [] else (if s[0].spec.isFree == free then [s[0]] else []) + Tier(s[1..], free)
  }

  /** A tier holds exactly the models of its kind. */
  lemma {:induction false} TierMembers(s: seq<LibraryModel>, free: bool)
    ensures forall m :: m in Tier(s, free) <==> m in s && m.spec.isFree == free
  {
    if s != [] {
      TierMembers(s[1..], free);
      assert s == [s[0]] + s[1..];
    }
  }

  /** Every model lands in exactly one of the two tiers. */
  lemma {:induction false} TiersPartition(s: seq<LibraryModel>)
    ensures multiset(Tier(s, true)) + multiset(Tier(s, false)) == multiset(s)
    ensures |Tier(s, true)| + |Tier(s, false)| == |s|
  {
    if s != [] {
      TiersPartition(s[1..]);
      assert s == [s[0]] + s[1..];
    }
  }

  /** Filtering a sorted list keeps it sorted. */
  lemma {:induction false} TierSorted(s: seq<LibraryModel>, tags: seq<ScenarioTag>, free: bool)
    requires SortedByScore(s, tags)
    ensures SortedByScore(Tier(s, free), tags)
  {
    if s != [] {
      var rest := Tier(s[1..], free);
      assert SortedByScore(s[1..], tags);
      TierSorted(s[1..], tags, free);
      if s[0].spec.isFree == free {
        SortedHeadMax(s, tags);
        TierMembers(s[1..], free);
        forall m | m in rest ensures Score(m, tags) <= Score(s[0], tags) {
          assert m in s;
        }
        SortedCons(s[0], rest, tags);
      }
    }
  }

  lemma {:induction false} TierAppend(a: seq<LibraryModel>, b: seq<LibraryModel>, free: bool)
    ensures Tier(a + b, free) == Tier(a, free) + Tier(b, free)
  {
    if a != [] {
      TierAppend(a[1..], b, free);
      assert (a + b)[1..] == a[1..] + b;
    } else {
      assert a + b == b;
    }
  }

  lemma {:induction false} WithScoreAppend(a: seq<LibraryModel>, b: seq<LibraryModel>, tags: seq<ScenarioTag>, v: int)
    ensures WithScore(a + b, tags, v) == WithScore(a, tags, v) + WithScore(b, tags, v)
  {
    if a != [] {
      WithScoreAppend(a[1..], b, tags, v);
      assert (a + b)[1..] == a[1..] + b;
    } else {
      assert a + b == b;
    }
  }

  /** Filtering by tier and by score commute. */
  lemma {:induction false} TierWithScore(s: seq<LibraryModel>, tags: seq<ScenarioTag>, free: bool, v: int)
    ensures WithScore(Tier(s, free), tags, v) == Tier(WithScore(s, tags, v), free)
  {
    if s != [] {
      var x, rest := s[0], s[1..];
      assert s == [x] + rest;
      assert [x][1..] == [];
      TierWithScore(rest, tags, free, v);
      TierAppend([x], rest, free);
      WithScoreAppend(Tier([x], free), Tier(rest, free), tags, v);
      WithScoreAppend([x], rest, tags, v);
      TierAppend(WithScore([x], tags, v), WithScore(rest, tags, v), free);
    }
  }

  /** Ranking and then splitting by tier is ranking each tier of the library. */
  lemma TierOfRanking(library: seq<LibraryModel>, tags: seq<ScenarioTag>, free: bool)
    ensures Tier(RankModels(library, tags), free) == RankModels(Tier(library, free), tags)
  {
    var ranked := RankModels(library, tags);
    TierSorted(ranked, tags, free);
    forall v ensures WithScore(Tier(ranked, free), tags, v) == WithScore(RankModels(Tier(library, free), tags), tags, v) {
      TierWithScore(ranked, tags, free, v);
      TierWithScore(library, tags, free, v);
    }
    RankingUnique(Tier(ranked, free), RankModels(Tier(library, free), tags), tags);
  }

  /**
   * `buildModelLineup`: the tags detected in the haystack, and the ranked
   * library split into its free and its paid models, each in ranked order.
   */
  function BuildModelLineup(input: ToolInput, library: seq<LibraryModel>, matches: TagMatcher): (lineup: ModelLineup)
    ensures lineup.tags == DetectTags(Haystack(input), matches)
    ensures forall i :: 0 <= i < |lineup.free| ==> lineup.free[i].spec.isFree
    ensures forall i :: 0 <= i < |lineup.paid| ==> !lineup.paid[i].spec.isFree
  {
    var tags := DetectTags(Haystack(input), matches);
    var ranked := RankModels(library, tags);
    ModelLineup(tags, Tier(ranked, true), Tier(ranked, false))
  }

  /**
   * Each list of the lineup is exactly the stable ranking of that tier of
   * the library, and together the two hold every model of the library once.
   */
  lemma LineupSplitsLibrary(input: ToolInput, library: seq<LibraryModel>, matches: TagMatcher)
    ensures var lineup := BuildModelLineup(input, library, matches);
      && lineup.free == RankModels(Tier(library, true), lineup.tags)
      && lineup.paid == RankModels(Tier(library, false), lineup.tags)
      && multiset(lineup.free) + multiset(lineup.paid) == multiset(library)
      && |lineup.free| + |lineup.paid| == |library|
  {
    var lineup := BuildModelLineup(input, library, matches);
    var ranked := RankModels(library, lineup.tags);
    assert lineup.free == Tier(ranked, true) && lineup.paid == Tier(ranked, false);
    TierOfRanking(library, lineup.tags, true);
    TierOfRanking(library, lineup.tags, false);
    TiersPartition(ranked);
  }
}

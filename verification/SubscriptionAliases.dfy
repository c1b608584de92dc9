/** The display names of a subscription: one for the main inbound and one for every slot,
    given out only for a complete and contiguous set of slots.
    Models internal/orchestrator/subscription.go, subscriptionAliases, and its use in
    Subscription. */
module SubscriptionAliases {
  import opened Wrappers
  import Decimal
  import FiniteSets

  /** `country` is well formed if it is not empty and not surrounded by blanks; whether it
      is, `strings.TrimSpace` decides. */
  datatype Main = Main(resource: string, enabled: bool, inbound: int, country: string, countryOk: bool)

  datatype Group = Group(resource: string, subscribable: bool, slot: int, inbound: int, country: string, countryOk: bool)

  predicate MainOk(main: Main, groups: seq<Group>) {
    main.resource == "agw-main" && main.enabled && main.inbound >= 1 && main.countryOk && |groups| > 0
  }

  predicate GroupOk(g: Group) {
    g.subscribable && |g.resource| >= 4 && g.resource[..4] == "agw-" && g.resource != "agw-main"
    && g.slot >= 0 && g.inbound >= 1 && g.countryOk
  }

  function MainAlias(main: Main): string {
    "\U{4E3B}\U{8FDE}\U{63A5}_" + main.country
  }

  const SLOT_PREFIX := "\U{51FA}\U{53E3}\U{4F4D} "

  function SlotAlias(slot: nat, country: string): string {
    SLOT_PREFIX + Decimal.Text(slot + 1) + "_" + country
  }

  /** How many characters a text begins with that are digits. */
  function DigitsOf(s: string): (n: nat)
    ensures n <= |s| && Decimal.AllDigits(s[..n])
  {
    if s == [] || !Decimal.IsDigit(s[0]) then 0 else 1 + DigitsOf(s[1..])
  }

  lemma {:induction false} DigitsThen(digits: string, rest: string)
    requires Decimal.AllDigits(digits) && rest != [] && !Decimal.IsDigit(rest[0])
    ensures DigitsOf(digits + rest) == |digits|
  {
    if digits != [] {
      assert (digits + rest)[1..] == digits[1..] + rest;
      DigitsThen(digits[1..], rest);
    } else {
      assert digits + rest == rest;
    }
  }

  /** A reader of names: the number after the prefix, counted from one, and what comes after
      the underscore. */
  function ReadAlias(name: string): Option<(int, string)> {
    if |name| < |SLOT_PREFIX| || name[..|SLOT_PREFIX|] != SLOT_PREFIX then None
    else
      var rest := name[|SLOT_PREFIX|..];
      var n := DigitsOf(rest);
      if n == 0 || n == |rest| || rest[n] != '_' then None else Some((Decimal.Value(rest[..n]) - 1, rest[n + 1..]))
  }

  /** The name of a slot reads back as its slot and its country. */
  lemma SlotAliasReadsBack(slot: nat, country: string)
    ensures ReadAlias(SlotAlias(slot, country)) == Some((slot as int, country))
  {
    var digits, rest := Decimal.Text(slot + 1), "_" + country;
    var name := SlotAlias(slot, country);
    assert name == SLOT_PREFIX + (digits + rest);
    assert name[..|SLOT_PREFIX|] == SLOT_PREFIX && name[|SLOT_PREFIX|..] == digits + rest;
    DigitsThen(digits, rest);
    Decimal.ValueOfText(slot + 1);
    assert (digits + rest)[..|digits|] == digits && (digits + rest)[|digits| + 1..] == country;
  }

  /** Names for different slots differ, whatever the countries are. */
  lemma SlotAliasesDiffer(a: nat, x: string, b: nat, y: string)
    requires SlotAlias(a, x) == SlotAlias(b, y)
    ensures a == b && x == y
  {
    SlotAliasReadsBack(a, x);
    SlotAliasReadsBack(b, y);
  }

  lemma MainAliasDiffers(main: Main, slot: nat, country: string)
    ensures MainAlias(main) != SlotAlias(slot, country)
  {
    assert MainAlias(main)[0] == '\U{4E3B}' && SlotAlias(slot, country)[0] == '\U{51FA}';
  }

  // ------------------------------------------------------------- permutations

  function Slots(groups: seq<Group>): seq<int> {
    seq(|groups|, i requires 0 <= i < |groups| => groups[i].slot)
  }

  function Iota(n: nat): seq<int> {
    seq(n, i => i)
  }

  predicate Distinct(s: seq<int>) {
    forall i, j :: 0 <= i < j < |s| ==> s[i] != s[j]
  }

  predicate Covers(s: seq<int>, n: nat) {
    forall k :: 0 <= k < n ==> k in s
  }

  /** The slots are exactly 0 to n-1, once each. */
  predicate IsPermutation(s: seq<int>) {
    multiset(s) == multiset(Iota(|s|))
  }

  lemma {:induction false} DistinctMeansOnce(s: seq<int>, x: int)
    requires Distinct(s)
    ensures multiset(s)[x] == if x in s then 1 else 0
  {
    if s != [] {
      var init, last := s[..|s| - 1], s[|s| - 1];
      DistinctMeansOnce(init, x);
      assert s == init + [last];
      assert last !in init;
    }
  }

  lemma {:induction false} OnceMeansDistinct(s: seq<int>)
    requires forall x :: multiset(s)[x] <= 1
    ensures Distinct(s)
  {
    if s != [] {
      var init, last := s[..|s| - 1], s[|s| - 1];
      assert s == init + [last];
      assert multiset(s) == multiset(init) + multiset{last};
      forall x ensures multiset(init)[x] <= 1 {
        assert multiset(s)[x] <= 1;
      }
      OnceMeansDistinct(init);
      assert multiset(s)[last] <= 1;
      assert last !in multiset(init);
    }
  }

  function Range(n: nat): set<int> {
    if n == 0 then {} else Range(n - 1) + {n - 1}
  }

  lemma {:induction false} RangeIs(n: nat)
    ensures |Range(n)| == n
    ensures forall k :: k in Range(n) <==> 0 <= k < n
  {
    if n > 0 {
      RangeIs(n - 1);
    }
  }

  function Elements(s: seq<int>): set<int> {
    set x | x in s
  }

  lemma {:induction false} DistinctSize(s: seq<int>)
    requires Distinct(s)
    ensures |Elements(s)| == |s|
  {
    if s != [] {
      var init, last := s[..|s| - 1], s[|s| - 1];
      DistinctSize(init);
      assert s == init + [last];
      assert Elements(s) == Elements(init) + {last};
      assert last !in Elements(init);
    }
  }

  lemma {:induction false} SubsetOfSameSize(a: set<int>, b: set<int>)
    requires a <= b && |a| == |b|
    ensures a == b
    decreases |a|
  {
    if |a| > 0 {
      FiniteSets.Inhabited(a);
      var x :| x in a;
      SubsetOfSameSize(a - {x}, b - {x});
      assert a == (a - {x}) + {x} && b == (b - {x}) + {x};
    }
  }

  /** The check the program makes, no slot twice and every number below the count present,
      is the statement that the slots are a permutation. */
  lemma CoverageIsPermutation(s: seq<int>)
    ensures IsPermutation(s) <==> Distinct(s) && Covers(s, |s|)
  {
    var n := |s|;
    assert Distinct(Iota(n));
    forall x ensures multiset(Iota(n))[x] == if 0 <= x < n then 1 else 0 {
      DistinctMeansOnce(Iota(n), x);
      assert 0 <= x < n ==> Iota(n)[x] == x;
    }
    if IsPermutation(s) {
      OnceMeansDistinct(s);
      forall k | 0 <= k < n ensures k in s {
        assert multiset(s)[k] == 1;
      }
    }
    if Distinct(s) && Covers(s, n) {
      RangeIs(n);
      DistinctSize(s);
      SubsetOfSameSize(Range(n), Elements(s));
      forall x ensures multiset(s)[x] == multiset(Iota(n))[x] {
        DistinctMeansOnce(s, x);
        assert x in s <==> x in Elements(s);
      }
    }
  }

  // ------------------------------------------------------------------ aliases

  predicate AllOk(groups: seq<Group>) {
    forall i :: 0 <= i < |groups| ==> GroupOk(groups[i])
  }

  /** The main inbound, then those of the groups. */
  function Inbounds(main: Main, groups: seq<Group>): (r: seq<int>)
    ensures |r| == |groups| + 1
  {
    if groups == [] then [main.inbound] else Inbounds(main, groups[..|groups| - 1]) + [groups[|groups| - 1].inbound]
  }

  /** Their names, in the same order. */
  function Texts(main: Main, groups: seq<Group>): (r: seq<string>)
    requires AllOk(groups)
    ensures |r| == |groups| + 1
  {
    if groups == [] then [MainAlias(main)]
    else Texts(main, groups[..|groups| - 1]) + [SlotAlias(groups[|groups| - 1].slot, groups[|groups| - 1].country)]
  }

  lemma {:induction false} InboundsAndTexts(main: Main, groups: seq<Group>, i: nat)
    requires AllOk(groups) && i <= |groups|
    ensures Inbounds(main, groups)[i] == if i == 0 then main.inbound else groups[i - 1].inbound
    ensures Texts(main, groups)[i] == if i == 0 then MainAlias(main) else SlotAlias(groups[i - 1].slot, groups[i - 1].country)
  {
    if i < |groups| {
      InboundsAndTexts(main, groups[..|groups| - 1], i);
    }
  }

  /** When names are given out. */
  predicate Accepts(main: Main, groups: seq<Group>) {
    MainOk(main, groups) && AllOk(groups) && Distinct(Inbounds(main, groups)) && IsPermutation(Slots(groups))
  }

  /** The names, inbound by inbound. */
  function Names(main: Main, groups: seq<Group>): map<int, string>
    requires AllOk(groups)
  {
    if groups == [] then map[main.inbound := MainAlias(main)]
    else
      var g := groups[|groups| - 1];
      Names(main, groups[..|groups| - 1])[g.inbound := SlotAlias(g.slot, g.country)]
  }

  lemma DistinctPrefix(s: seq<int>, x: int)
    ensures Distinct(s + [x]) <==> Distinct(s) && x !in s
  {
    if Distinct(s + [x]) {
      forall i, j | 0 <= i < j < |s| ensures s[i] != s[j] {
        assert (s + [x])[i] != (s + [x])[j];
      }
      forall i | 0 <= i < |s| ensures s[i] != x {
        assert (s + [x])[i] != (s + [x])[|s|];
      }
    }
  }

  lemma {:induction false} NamesKeys(main: Main, groups: seq<Group>)
    requires AllOk(groups)
    ensures Names(main, groups).Keys == Elements(Inbounds(main, groups))
  {
    if groups != [] {
      NamesKeys(main, groups[..|groups| - 1]);
    }
  }

  lemma {:induction false} NameOf(main: Main, groups: seq<Group>, i: nat)
    requires AllOk(groups) && Distinct(Inbounds(main, groups)) && i <= |groups|
    ensures Inbounds(main, groups)[i] in Names(main, groups)
    ensures Names(main, groups)[Inbounds(main, groups)[i]] == Texts(main, groups)[i]
  {
    if groups != [] {
      var init, g := groups[..|groups| - 1], groups[|groups| - 1];
      DistinctPrefix(Inbounds(main, init), g.inbound);
      if i <= |init| {
        NameOf(main, init, i);
      }
    }
  }

  lemma TextsDiffer(main: Main, groups: seq<Group>, i: nat, j: nat)
    requires AllOk(groups) && Distinct(Slots(groups)) && i < j <= |groups|
    ensures Texts(main, groups)[i] != Texts(main, groups)[j]
  {
    TextAt(main, groups, i);
    TextAt(main, groups, j);
    NameBefore(main, groups, i, j);
  }

  /** The name at `i`, worked out, is not the name at `j`. */
  lemma NameBefore(main: Main, groups: seq<Group>, i: nat, j: nat)
    requires AllOk(groups) && Distinct(Slots(groups)) && i < j <= |groups|
    ensures (if i == 0 then MainAlias(main) else SlotAlias(groups[i - 1].slot, groups[i - 1].country))
            != SlotAlias(groups[j - 1].slot, groups[j - 1].country)
  {
    if i == 0 {
      MainAliasDiffers(main, groups[j - 1].slot, groups[j - 1].country);
    } else {
      assert Slots(groups)[i - 1] != Slots(groups)[j - 1];
      GroupsDiffer(groups[i - 1], groups[j - 1]);
    }
  }

  lemma TextAt(main: Main, groups: seq<Group>, i: nat)
    requires AllOk(groups) && i <= |groups|
    ensures Texts(main, groups)[i] == if i == 0 then MainAlias(main) else SlotAlias(groups[i - 1].slot, groups[i - 1].country)
  {
    InboundsAndTexts(main, groups, i);
  }

  lemma GroupsDiffer(a: Group, b: Group)
    requires a.slot >= 0 && b.slot >= 0 && a.slot != b.slot
    ensures SlotAlias(a.slot, a.country) != SlotAlias(b.slot, b.country)
  {
    if SlotAlias(a.slot, a.country) == SlotAlias(b.slot, b.country) {
      SlotAliasesDiffer(a.slot, a.country, b.slot, b.country);
    }
  }

  /** Names that are given out: n+1 inbounds, and no name twice. */
  lemma NamesAreDistinct(main: Main, groups: seq<Group>)
    requires Accepts(main, groups)
    ensures |Names(main, groups)| == |groups| + 1
    ensures forall a, b :: a in Names(main, groups) && b in Names(main, groups) && a != b ==> Names(main, groups)[a] != Names(main, groups)[b]
  {
    var all, names := Inbounds(main, groups), Names(main, groups);
    NamesKeys(main, groups);
    DistinctSize(all);
    assert |names| == |names.Keys|;
    CoverageIsPermutation(Slots(groups));
    forall a, b | a in names && b in names && a != b ensures names[a] != names[b] {
      var i: nat :| i < |all| && all[i] == a;
      var j: nat :| j < |all| && all[j] == b;
      NameOf(main, groups, i);
      NameOf(main, groups, j);
      if i < j {
        TextsDiffer(main, groups, i, j);
      } else {
        TextsDiffer(main, groups, j, i);
      }
    }
  }

  // ------------------------------------------------------------- the program

  lemma SlotsPrefix(groups: seq<Group>, k: nat)
    requires k < |groups|
    ensures Slots(groups[..k + 1]) == Slots(groups[..k]) + [groups[k].slot]
  {
  }

  lemma {:induction false} InboundsPrefix(main: Main, groups: seq<Group>, k: nat)
    requires k <= |groups|
    ensures Inbounds(main, groups[..k]) == Inbounds(main, groups)[..k + 1]
    decreases |groups|
  {
    if k < |groups| {
      InboundsPrefix(main, groups[..|groups| - 1], k);
      assert groups[..|groups| - 1][..k] == groups[..k];
    } else {
      assert groups[..k] == groups;
    }
  }

  /** A check that fails on the first groups fails on all of them. */
  lemma PrefixFails(main: Main, groups: seq<Group>, k: nat)
    requires k <= |groups|
    requires !(AllOk(groups[..k]) && Distinct(Inbounds(main, groups[..k])) && Distinct(Slots(groups[..k])))
    ensures !Accepts(main, groups)
  {
    InboundsPrefix(main, groups, k);
    CoverageIsPermutation(Slots(groups));
    if Distinct(Slots(groups)) {
      forall i, j | 0 <= i < j < k ensures Slots(groups[..k])[i] != Slots(groups[..k])[j] {
        assert Slots(groups)[i] != Slots(groups)[j];
      }
    }
    if Distinct(Inbounds(main, groups)) {
      forall i, j | 0 <= i < j < k + 1 ensures Inbounds(main, groups[..k])[i] != Inbounds(main, groups[..k])[j] {
        assert Inbounds(main, groups)[i] != Inbounds(main, groups)[j];
      }
    }
    if AllOk(groups) {
      assert forall i :: 0 <= i < k ==> groups[..k][i] == groups[i];
    }
  }

  /** The loop over the groups: names and slots, or a failure that nothing later mends. */
  method Collect(main: Main, groups: seq<Group>) returns (ok: bool, aliases: map<int, string>, seen: set<int>)
    ensures !ok ==> !Accepts(main, groups)
    ensures ok ==> AllOk(groups) && Distinct(Inbounds(main, groups)) && Distinct(Slots(groups))
    ensures ok ==> aliases == Names(main, groups) && seen == Elements(Slots(groups))
  {
    ok := true;
    aliases := map[main.inbound := MainAlias(main)];
    seen := {};
    for k := 0 to |groups|
      invariant ok && AllOk(groups[..k]) && Distinct(Inbounds(main, groups[..k])) && Distinct(Slots(groups[..k]))
      invariant aliases == Names(main, groups[..k]) && seen == Elements(Slots(groups[..k]))
    {
      var g := groups[k];
      assert groups[..k + 1][..k] == groups[..k] && groups[..k + 1][k] == g;
      SlotsPrefix(groups, k);
      DistinctPrefix(Slots(groups[..k]), g.slot);
      DistinctPrefix(Inbounds(main, groups[..k]), g.inbound);
      NamesKeys(main, groups[..k]);
      if !GroupOk(g) || g.slot in seen || g.inbound in aliases {
        PrefixFails(main, groups, k + 1);
        return false, aliases, seen;
      }
      seen := seen + {g.slot};
      aliases := aliases[g.inbound := SlotAlias(g.slot, g.country)];
    }
    assert groups[..|groups|] == groups;
  }

  /** The loop over the numbers: no slot is missing. */
  method Contiguous(seen: set<int>, n: nat) returns (ok: bool)
    ensures ok <==> forall k :: 0 <= k < n ==> k in seen
  {
    for slot := 0 to n
      invariant forall k :: 0 <= k < slot ==> k in seen
    {
      if slot !in seen {
        return false;
      }
    }
    ok := true;
  }

  /** `subscriptionAliases`: names are given out exactly if main and groups are well
      formed, no inbound occurs twice, and the slots are a permutation of 0 to n-1. */
  method Aliases(main: Main, groups: seq<Group>) returns (r: Result<map<int, string>>)
    ensures r.Success? <==> Accepts(main, groups)
    ensures r.Success? ==> r.value == Names(main, groups)
  {
    if !MainOk(main, groups) {
      return Failure("invalid_request");
    }
    var ok, aliases, seen := Collect(main, groups);
    if !ok {
      return Failure("invalid_request");
    }
    ok := Contiguous(seen, |groups|);
    CoverageIsPermutation(Slots(groups));
    assert forall k :: k in seen <==> k in Slots(groups);
    r := if ok then Success(aliases) else Failure("invalid_request");
  }

  // ------------------------------------------------------------- coverage

  function GroupInbounds(groups: seq<Group>): seq<int> {
    seq(|groups|, i requires 0 <= i < |groups| => groups[i].inbound)
  }

  /** The check of Subscription on the one inbound the panel reports as the main one and
      the inbounds of the groups: it passes exactly if that one has a name, and the checked
      inbounds are then all the named ones exactly if it is the recorded main inbound. A
      panel that reports the inbound of a group as the main one passes the check although
      the main inbound is not among those checked. */
  lemma CoverageCheck(main: Main, groups: seq<Group>, reported: int)
    requires Accepts(main, groups)
    ensures var ids, names := [reported] + GroupInbounds(groups), Names(main, groups);
            && |ids| == |names|
            && ((forall i :: 0 <= i < |ids| ==> ids[i] in names) <==> reported in names)
            && (reported in names ==> (Elements(ids) == names.Keys <==> reported == main.inbound))
  {
    var ids, names := [reported] + GroupInbounds(groups), Names(main, groups);
    NamesAreDistinct(main, groups);
    NamesKeys(main, groups);
    forall i | 0 <= i < |groups| ensures groups[i].inbound in names && groups[i].inbound != main.inbound {
      InboundsAndTexts(main, groups, i + 1);
      InboundsAndTexts(main, groups, 0);
      assert Inbounds(main, groups)[0] != Inbounds(main, groups)[i + 1];
      assert Inbounds(main, groups)[i + 1] in Elements(Inbounds(main, groups));
    }
    assert ids[0] == reported && forall i :: 1 <= i < |ids| ==> ids[i] == groups[i - 1].inbound;
    InboundsAndTexts(main, groups, 0);
    assert main.inbound in Elements(Inbounds(main, groups));
    if reported in names {
      if reported == main.inbound {
        forall x | x in names ensures x in ids {
          var i: nat :| i < |Inbounds(main, groups)| && Inbounds(main, groups)[i] == x;
          InboundsAndTexts(main, groups, i);
          assert i > 0 ==> ids[i] == x;
        }
      } else {
        assert main.inbound !in ids;
      }
    }
  }

  /** That does happen: one group with its slot, and a panel that reports the group's
      inbound as the main one. Names are given out, every checked inbound has one, and the
      main inbound is not among them. */
  lemma WrongMainPasses(inbound: int, other: int)
    requires inbound >= 1 && other >= 1 && inbound != other
    ensures var (main, groups) := (Main("agw-main", true, inbound, "JP", true), [Group("agw-jp", true, 0, other, "JP", true)]);
            var ids := [other] + GroupInbounds(groups);
            && Accepts(main, groups)
            && (forall i :: 0 <= i < |ids| ==> ids[i] in Names(main, groups))
            && main.inbound in Names(main, groups) && main.inbound !in ids
  {
    var main, groups := Main("agw-main", true, inbound, "JP", true), [Group("agw-jp", true, 0, other, "JP", true)];
    assert groups[..0] == [];
    assert Inbounds(main, groups[..0]) == [inbound];
    assert Inbounds(main, groups) == [inbound, other];
    assert Slots(groups) == [0] == Iota(1);
    CoverageCheck(main, groups, other);
    NamesKeys(main, groups);
    assert Inbounds(main, groups)[1] in Elements(Inbounds(main, groups)) && Inbounds(main, groups)[0] in Elements(Inbounds(main, groups));
    assert GroupInbounds(groups) == [other];
  }
}

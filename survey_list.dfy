/**
 * The grouping `renderSurveys` shows on the home screen: Open surveys,
 * Closed surveys and archived surveys, each newest first.
 */
module SurveyList {
  import opened Wrappers
  import opened Seqs
  import opened Surveys

  datatype Group = OpenGroup | ClosedGroup | ArchivedGroup

  /** The filter of each group. */
  predicate InGroup(s: Survey, g: Group) {
    match g
    case OpenGroup => IsOpen(s)
    case ClosedGroup => s.status == CLOSED && !s.archived
    case ArchivedGroup => s.archived
  }

  /** A survey that is neither archived nor Open nor Closed: no group lists it. */
  predicate Unlisted(s: Survey) {
    !s.archived && s.status != OPEN && s.status != CLOSED
  }

  /** The one group whose filter a survey passes, if any. */
  function GroupOf(s: Survey): (r: Option<Group>)
    ensures forall g :: InGroup(s, g) <==> r == Some(g)
    ensures r.None? <==> Unlisted(s)
  {
    if s.archived then Some(ArchivedGroup)
    else if s.status == OPEN then Some(OpenGroup)
    else if s.status == CLOSED then Some(ClosedGroup)
    else None
  }

  /** `data.surveys.filter(...)` for one group, in list order. */
  function Members(ss: seq<Survey>, g: Group): (r: seq<Survey>)
    ensures forall k :: 0 <= k < |r| ==> InGroup(r[k], g)
    ensures multiset(r) <= multiset(ss)
    ensures forall x :: multiset(r)[x] == if GroupOf(x) == Some(g) then multiset(ss)[x] else 0
  {
    if ss == [] then []
    else
      MultisetCons(ss);
      (if GroupOf(ss[0]) == Some(g) then [ss[0]] else []) + Members(ss[1..], g)
  }

  /** The surveys no group lists, in list order. */
  function UnlistedOf(ss: seq<Survey>): seq<Survey> {
    if ss == [] then []
    else (if GroupOf(ss[0]).None? then [ss[0]] else []) + UnlistedOf(ss[1..])
  }

  /** Newest first: `createdAt` never increases along the sequence. */
  predicate NewestFirst(ss: seq<Survey>) {
    forall i, j :: 0 <= i < j < |ss| ==> ss[i].createdAt >= ss[j].createdAt
  }

  /** Insertion of one survey into a newest-first sequence, after the newer ones and before the rest. */
  function Insert(x: Survey, ss: seq<Survey>): (r: seq<Survey>)
    requires NewestFirst(ss)
    ensures NewestFirst(r)
    ensures multiset(r) == multiset(ss) + multiset{x}
    ensures |r| > 0 && (r[0] == x || (ss != [] && r[0] == ss[0]))
  {
    if ss == [] || x.createdAt >= ss[0].createdAt then [x] + ss
    else
      assert ss == [ss[0]] + ss[1..];
      [ss[0]] + Insert(x, ss[1..])
  }

  /** `arr.sort((a, b) => b.createdAt - a.createdAt)`: the same surveys, newest first. */
  function SortByDate(ss: seq<Survey>): (r: seq<Survey>)
    ensures NewestFirst(r)
    ensures multiset(r) == multiset(ss)
  {
    if ss == [] then []
    else
      assert ss == [ss[0]] + ss[1..];
      Insert(ss[0], SortByDate(ss[1..]))
  }

  /** The surveys of one creation time, in list order. */
  function WithDate(ss: seq<Survey>, d: int): seq<Survey> {
    if ss == [] then []
    else (if ss[0].createdAt == d then [ss[0]] else []) + WithDate(ss[1..], d)
  }

  lemma WithDateCons(x: Survey, ss: seq<Survey>, d: int)
    ensures WithDate([x] + ss, d) == (if x.createdAt == d then [x] else []) + WithDate(ss, d)
  {
    assert ([x] + ss)[0] == x;
    assert ([x] + ss)[1..] == ss;
  }

  /** Inserting a survey puts it ahead of every survey of the same creation time. */
  lemma {:induction false} InsertWithDate(x: Survey, ss: seq<Survey>, d: int)
    requires NewestFirst(ss)
    ensures WithDate(Insert(x, ss), d) == (if x.createdAt == d then [x] else []) + WithDate(ss, d)
  {
    if ss == [] || x.createdAt >= ss[0].createdAt {
      WithDateCons(x, ss, d);
    } else {
      var y := ss[0];
      assert ss == [y] + ss[1..];
      InsertWithDate(x, ss[1..], d);
      WithDateCons(y, Insert(x, ss[1..]), d);
      WithDateCons(y, ss[1..], d);
      var ky: seq<Survey> := if y.createdAt == d then [y] else [];
      var kx: seq<Survey> := if x.createdAt == d then [x] else [];
      assert ky == [] || kx == [];
      Seqs.ConcatAssoc(ky, kx, WithDate(ss[1..], d));
      Seqs.ConcatAssoc(kx, ky, WithDate(ss[1..], d));
    }
  }

  /**
   * The sort is stable: the comparator is 0 on equal creation times and
   * `Array.prototype.sort` keeps their order, so surveys created at the same
   * time keep their relative order.
   */
  lemma {:induction false} SortByDateIsStable(ss: seq<Survey>, d: int)
    ensures WithDate(SortByDate(ss), d) == WithDate(ss, d)
  {
    if ss != [] {
      SortByDateIsStable(ss[1..], d);
      InsertWithDate(ss[0], SortByDate(ss[1..]), d);
    }
  }

  /** The three lists `renderSurveys` draws, in the order it draws them. */
  datatype Listing = Listing(open: seq<Survey>, closed: seq<Survey>, archived: seq<Survey>)

  function RenderGroups(ss: seq<Survey>): (r: Listing)
    ensures NewestFirst(r.open) && NewestFirst(r.closed) && NewestFirst(r.archived)
    ensures multiset(r.open) == multiset(Members(ss, OpenGroup))
    ensures multiset(r.closed) == multiset(Members(ss, ClosedGroup))
    ensures multiset(r.archived) == multiset(Members(ss, ArchivedGroup))
  {
    Listing(SortByDate(Members(ss, OpenGroup)), SortByDate(Members(ss, ClosedGroup)), SortByDate(Members(ss, ArchivedGroup)))
  }

  /** All surveys the three groups and the unlisted ones hold together. */
  function Tally(ss: seq<Survey>): multiset<Survey> {
    multiset(Members(ss, OpenGroup)) + multiset(Members(ss, ClosedGroup))
      + multiset(Members(ss, ArchivedGroup)) + multiset(UnlistedOf(ss))
  }

  /** x once when b holds, nothing otherwise. */
  function Only(x: Survey, b: bool): multiset<Survey> {
    if b then multiset{x} else multiset{}
  }

  lemma MembersCons(ss: seq<Survey>, g: Group)
    requires ss != []
    ensures multiset(Members(ss, g)) == Only(ss[0], GroupOf(ss[0]) == Some(g)) + multiset(Members(ss[1..], g))
  {
  }

  lemma UnlistedCons(ss: seq<Survey>)
    requires ss != []
    ensures multiset(UnlistedOf(ss)) == Only(ss[0], GroupOf(ss[0]).None?) + multiset(UnlistedOf(ss[1..]))
  {
  }

  /** Whatever its group, a survey adds itself to exactly one of the four parts. */
  lemma OneMore(x: Survey, k: Option<Group>, o: multiset<Survey>, c: multiset<Survey>, a: multiset<Survey>, u: multiset<Survey>)
    ensures (Only(x, k == Some(OpenGroup)) + o) + (Only(x, k == Some(ClosedGroup)) + c)
      + (Only(x, k == Some(ArchivedGroup)) + a) + (Only(x, k.None?) + u) == multiset{x} + (o + c + a + u)
  {
    match k
    case Some(OpenGroup) =>
    case Some(ClosedGroup) =>
    case Some(ArchivedGroup) =>
    case None =>
  }

  /** The first survey is counted exactly once, in its own group or among the unlisted. */
  lemma TallyCons(ss: seq<Survey>)
    requires ss != []
    ensures Tally(ss) == multiset{ss[0]} + Tally(ss[1..])
  {
    var t := ss[1..];
    MembersCons(ss, OpenGroup);
    MembersCons(ss, ClosedGroup);
    MembersCons(ss, ArchivedGroup);
    UnlistedCons(ss);
    OneMore(ss[0], GroupOf(ss[0]),
      multiset(Members(t, OpenGroup)), multiset(Members(t, ClosedGroup)),
      multiset(Members(t, ArchivedGroup)), multiset(UnlistedOf(t)));
  }

  /** Every survey lands in exactly one group or among the unlisted ones. */
  lemma {:induction false} MembersPartition(ss: seq<Survey>)
    ensures Tally(ss) == multiset(ss)
  {
    if ss != [] {
      MembersPartition(ss[1..]);
      TallyCons(ss);
      MultisetCons(ss);
    }
  }

  lemma {:induction false} UnlistedOfEmpty(ss: seq<Survey>)
    ensures UnlistedOf(ss) == [] <==> forall k :: 0 <= k < |ss| ==> !Unlisted(ss[k])
  {
    if ss != [] {
      UnlistedOfEmpty(ss[1..]);
      assert ss == [ss[0]] + ss[1..];
      assert forall k :: 1 <= k < |ss| ==> ss[k] == ss[1..][k - 1];
    }
  }

  /**
   * The home screen shows every survey exactly once if and only if every
   * survey is archived, Open or Closed; a survey with any other status is
   * silently left out.
   */
  lemma ListingShowsEverySurvey(ss: seq<Survey>)
    ensures var r := RenderGroups(ss);
      multiset(r.open) + multiset(r.closed) + multiset(r.archived) == multiset(ss)
        <==> forall k :: 0 <= k < |ss| ==> !Unlisted(ss[k])
  {
    MembersPartition(ss);
    UnlistedOfEmpty(ss);
    if UnlistedOf(ss) != [] {
      assert |multiset(UnlistedOf(ss))| > 0;
    }
  }
}

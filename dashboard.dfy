/** `property.dashboard`: the figures `default_get` fills in when the
    dashboard opens. Windowed sums and counts over collections, new tenants
    and paid expenses for today, the week from Monday and the month from the
    1st; room counts and the occupancy percentage; and the two recent-activity
    texts. The clock and Python's float formatting are parameters. */
module Dashboard {
  import opened Common
  import opened Calendar
  import opened Schema
  import opened Rooms
  import opened Collections
  import opened Expenses
  import opened Properties

  // Windows over the collections.

  /** The search `date >= lo, date <= hi, status != 'cancelled'`. */
  predicate InWindow(c: Collection, lo: int, hi: int)
  {
    lo <= c.date <= hi && c.status != CollectionStatus.Cancelled
  }

  function Window(cs: seq<Collection>, lo: int, hi: int): (r: seq<Collection>)
    ensures |r| <= |cs|
  {
    if cs == [] then []
    else if InWindow(cs[|cs| - 1], lo, hi) then Window(cs[..|cs| - 1], lo, hi) + [cs[|cs| - 1]]
    else Window(cs[..|cs| - 1], lo, hi)
  }

  /** The window holds exactly the collections the search matches. */
  lemma {:induction false} WindowMembers(cs: seq<Collection>, lo: int, hi: int)
    ensures forall c :: c in Window(cs, lo, hi) <==> c in cs && InWindow(c, lo, hi)
  {
    if cs != [] {
      var init := cs[..|cs| - 1];
      WindowMembers(init, lo, hi);
      assert cs == init + [cs[|cs| - 1]];
    }
  }

  /** A window cut at a day falls apart into the two windows on either side,
      in count and in amount. */
  lemma {:induction false} WindowSplit(cs: seq<Collection>, lo: int, mid: int, hi: int)
    requires lo <= mid < hi
    ensures |Window(cs, lo, hi)| == |Window(cs, lo, mid)| + |Window(cs, mid + 1, hi)|
    ensures TotalCollected(Window(cs, lo, hi)) ==
            TotalCollected(Window(cs, lo, mid)) + TotalCollected(Window(cs, mid + 1, hi))
  {
    if cs != [] {
      var init, c := cs[..|cs| - 1], cs[|cs| - 1];
      WindowSplit(init, lo, mid, hi);
      SnocTotal(Window(init, lo, hi), c);
      SnocTotal(Window(init, lo, mid), c);
      SnocTotal(Window(init, mid + 1, hi), c);
    }
  }

  lemma SnocTotal(w: seq<Collection>, c: Collection)
    ensures TotalCollected(w + [c]) == TotalCollected(w) + c.amountCollected
  {
    assert (w + [c])[..|w|] == w;
  }

  /** A window that starts later holds fewer collections and, saved amounts
      being positive, less money. */
  lemma {:induction false} NestedWindows(cs: seq<Collection>, lo1: int, lo2: int, hi: int)
    requires lo1 <= lo2
    requires forall i :: 0 <= i < |cs| ==> Collections.CheckAmountPositive(cs[i]).Pass?
    ensures |Window(cs, lo2, hi)| <= |Window(cs, lo1, hi)|
    ensures TotalCollected(Window(cs, lo2, hi)) <= TotalCollected(Window(cs, lo1, hi))
  {
    if cs != [] {
      var init, c := cs[..|cs| - 1], cs[|cs| - 1];
      NestedWindows(init, lo1, lo2, hi);
      assert Collections.CheckAmountPositive(c).Pass?;
      SnocTotal(Window(init, lo1, hi), c);
      SnocTotal(Window(init, lo2, hi), c);
    }
  }

  /** `sum(...mapped('amount_collected'))` and `len(...)` over one search. */
  method SumCollections(cs: seq<Collection>, lo: int, hi: int) returns (total: Money, count: nat)
    ensures total == TotalCollected(Window(cs, lo, hi)) && count == |Window(cs, lo, hi)|
  {
    total, count := 0.0, 0;
    for i := 0 to |cs|
      invariant total == TotalCollected(Window(cs[..i], lo, hi)) && count == |Window(cs[..i], lo, hi)|
    {
      assert cs[..i + 1][..i] == cs[..i];
      if InWindow(cs[i], lo, hi) {
        SnocTotal(Window(cs[..i], lo, hi), cs[i]);
        total := total + cs[i].amountCollected;
        count := count + 1;
      }
    }
    assert cs[..|cs|] == cs;
  }

  // New tenants.

  /** The search `create_date >= lo 00:00, create_date < (hi + 1) 00:00`,
      with `create_date` reduced to its day. */
  function NewTenants(ts: seq<Tenant>, lo: int, hi: int): (n: nat)
    ensures n <= |ts|
  {
    if ts == [] then 0
    else NewTenants(ts[..|ts| - 1], lo, hi) + (if lo <= ts[|ts| - 1].createDay < hi + 1 then 1 else 0)
  }

  /** A window that starts later counts no more new tenants. */
  lemma {:induction false} NewTenantsNested(ts: seq<Tenant>, lo1: int, lo2: int, hi: int)
    requires lo1 <= lo2
    ensures NewTenants(ts, lo2, hi) <= NewTenants(ts, lo1, hi)
  {
    if ts != [] {
      NewTenantsNested(ts[..|ts| - 1], lo1, lo2, hi);
    }
  }

  method CountNewTenants(ts: seq<Tenant>, lo: int, hi: int) returns (n: nat)
    ensures n == NewTenants(ts, lo, hi)
  {
    n := 0;
    for i := 0 to |ts|
      invariant n == NewTenants(ts[..i], lo, hi)
    {
      assert ts[..i + 1][..i] == ts[..i];
      if lo <= ts[i].createDay < hi + 1 {
        n := n + 1;
      }
    }
    assert ts[..|ts|] == ts;
  }

  /** `search_count([('status', '=', 'active')])`. */
  function ActiveTenants(ts: seq<Tenant>): (n: nat)
    ensures n <= |ts|
    ensures n == 0 <==> forall i :: 0 <= i < |ts| ==> ts[i].status != TenantStatus.Active
  {
    if ts == [] then 0
    else ActiveTenants(ts[..|ts| - 1]) + (if ts[|ts| - 1].status == TenantStatus.Active then 1 else 0)
  }

  method CountActiveTenants(ts: seq<Tenant>) returns (n: nat)
    ensures n == ActiveTenants(ts)
  {
    n := 0;
    for i := 0 to |ts|
      invariant n == ActiveTenants(ts[..i])
    {
      assert ts[..i + 1][..i] == ts[..i];
      if ts[i].status == TenantStatus.Active {
        n := n + 1;
      }
    }
    assert ts[..|ts|] == ts;
  }

  // Paid expenses of the month.

  /** The search `date >= lo, date <= hi, state = 'paid'`. */
  predicate PaidIn(e: Expense, lo: int, hi: int)
  {
    lo <= e.date <= hi && e.state == ExpenseState.Paid
  }

  function PaidExpenses(es: seq<Expense>, lo: int, hi: int): (r: seq<Expense>)
    ensures |r| <= |es|
  {
    if es == [] then []
    else if PaidIn(es[|es| - 1], lo, hi) then PaidExpenses(es[..|es| - 1], lo, hi) + [es[|es| - 1]]
    else PaidExpenses(es[..|es| - 1], lo, hi)
  }

  /** `month_expenses` sums exactly the paid expenses of the window. */
  lemma {:induction false} PaidExpensesMembers(es: seq<Expense>, lo: int, hi: int)
    ensures forall e :: e in PaidExpenses(es, lo, hi) <==> e in es && PaidIn(e, lo, hi)
  {
    if es != [] {
      var init := es[..|es| - 1];
      PaidExpensesMembers(init, lo, hi);
      assert es == init + [es[|es| - 1]];
    }
  }

  method SumPaidExpenses(es: seq<Expense>, lo: int, hi: int) returns (total: Money)
    ensures total == TotalAmount(PaidExpenses(es, lo, hi))
  {
    total := 0.0;
    for i := 0 to |es|
      invariant total == TotalAmount(PaidExpenses(es[..i], lo, hi))
    {
      assert es[..i + 1][..i] == es[..i];
      var w := PaidExpenses(es[..i], lo, hi);
      if PaidIn(es[i], lo, hi) {
        assert (w + [es[i]])[..|w|] == w;
        total := total + es[i].amount;
      }
    }
    assert es[..|es|] == es;
  }

  // Rooms.

  /** `occupancy_rate`: occupied over total rooms as a percentage, 0 without rooms. */
  function OccupancyPercent(occupied: nat, total: nat): (r: real)
    requires occupied <= total
    ensures 0.0 <= r <= 100.0
    ensures r == 100.0 <==> total > 0 && occupied == total
    ensures r == 0.0 <==> total == 0 || occupied == 0
  {
    if total > 0 then
      RatioBounds(occupied, total);
      (occupied as real / total as real) * 100.0
    else 0.0
  }

  /** `vacant_rooms` (all rooms but the occupied) never falls below
      `today_vacant_rooms` (rooms in status vacant); the two agree exactly
      when no room is booked, in maintenance or unavailable. */
  lemma {:induction false} VacancyFigures(rooms: seq<Room>)
    ensures CountStatus(rooms, RoomStatus.Vacant) <= |rooms| - CountStatus(rooms, RoomStatus.Occupied)
    ensures CountStatus(rooms, RoomStatus.Vacant) == |rooms| - CountStatus(rooms, RoomStatus.Occupied) <==>
              forall i :: 0 <= i < |rooms| ==>
                rooms[i].status == RoomStatus.Vacant || rooms[i].status == RoomStatus.Occupied
  {
    if rooms != [] {
      var init := rooms[..|rooms| - 1];
      VacancyFigures(init);
      CountTwoStatuses(init, RoomStatus.Vacant, RoomStatus.Occupied);
      if forall i :: 0 <= i < |rooms| ==>
           rooms[i].status == RoomStatus.Vacant || rooms[i].status == RoomStatus.Occupied {
        forall i | 0 <= i < |init|
          ensures init[i].status == RoomStatus.Vacant || init[i].status == RoomStatus.Occupied
        {
          assert init[i] == rooms[i];
        }
      }
    }
  }

  // The recent-activity lists.

  /** Each entry is at least as late, by `key`, as the next: the order
      `order='<key> desc'` leaves. */
  predicate Ordered<T>(key: T -> int, s: seq<T>)
  {
    forall k :: 0 <= k < |s| - 1 ==> key(s[k]) >= key(s[k + 1])
  }

  /** Steps of the order chain together: any entry is at least as late as
      every entry after it. */
  lemma {:induction false} OrderedGlobal<T>(key: T -> int, s: seq<T>)
    requires Ordered(key, s)
    ensures forall j, k :: 0 <= j < k < |s| ==> key(s[j]) >= key(s[k])
  {
    if |s| > 1 {
      var tail := s[1..];
      assert Ordered(key, tail) by {
        forall k | 0 <= k < |tail| - 1 ensures key(tail[k]) >= key(tail[k + 1])
        {
          assert tail[k] == s[k + 1] && tail[k + 1] == s[k + 2];
        }
      }
      OrderedGlobal(key, tail);
      forall j, k | 0 <= j < k < |s| ensures key(s[j]) >= key(s[k])
      {
        if j == 0 {
          if k > 1 {
            assert tail[0] == s[1] && tail[k - 1] == s[k];
          }
        } else {
          assert tail[j - 1] == s[j] && tail[k - 1] == s[k];
        }
      }
    }
  }

  /** Puts `x` into a latest-first list, after the entries with the same key. */
  function InsertBy<T>(key: T -> int, s: seq<T>, x: T): (r: seq<T>)
    ensures |r| == |s| + 1 && multiset(r) == multiset(s) + multiset{x}
    ensures s == [] ==> r == [x]
    ensures s != [] ==> r[0] == x || r[0] == s[0]
  {
    if s == [] then [x]
    else if key(x) > key(s[0]) then [x] + s
    else
      assert s == [s[0]] + s[1..];
      [s[0]] + InsertBy(key, s[1..], x)
  }

  lemma {:induction false} InsertByOrdered<T>(key: T -> int, s: seq<T>, x: T)
    requires Ordered(key, s)
    ensures Ordered(key, InsertBy(key, s, x))
  {
    if s != [] && key(x) <= key(s[0]) {
      var tail := s[1..];
      assert Ordered(key, tail) by {
        forall k | 0 <= k < |tail| - 1 ensures key(tail[k]) >= key(tail[k + 1])
        {
          assert tail[k] == s[k + 1] && tail[k + 1] == s[k + 2];
        }
      }
      InsertByOrdered(key, tail, x);
      var rest := InsertBy(key, tail, x);
      var r := InsertBy(key, s, x);
      assert r == [s[0]] + rest;
      forall k | 0 <= k < |r| - 1 ensures key(r[k]) >= key(r[k + 1])
      {
        if k == 0 {
          assert r[1] == rest[0];
          if tail != [] {
            assert tail[0] == s[1];
          }
        } else {
          assert r[k] == rest[k - 1] && r[k + 1] == rest[k];
        }
      }
    }
  }

  /** The search's ordering, as an insertion sort: a permutation, latest first. */
  function SortBy<T>(key: T -> int, s: seq<T>): (r: seq<T>)
    ensures |r| == |s| && multiset(r) == multiset(s)
  {
    if s == [] then []
    else
      assert s == s[..|s| - 1] + [s[|s| - 1]];
      InsertBy(key, SortBy(key, s[..|s| - 1]), s[|s| - 1])
  }

  lemma {:induction false} SortByOrdered<T>(key: T -> int, s: seq<T>)
    ensures Ordered(key, SortBy(key, s))
  {
    if s != [] {
      SortByOrdered(key, s[..|s| - 1]);
      InsertByOrdered(key, SortBy(key, s[..|s| - 1]), s[|s| - 1]);
    }
  }

  /** `limit=5`. */
  function Limit<T>(r: seq<T>): (t: seq<T>)
    ensures |t| == if |r| < 5 then |r| else 5
    ensures t == r[..|t|]
  {
    if |r| <= 5 then r else r[..5]
  }

  /** The first five of a latest-first list are the five latest: each kept
      entry is at least as late as any entry left out. */
  lemma LimitKeepsLatest<T>(key: T -> int, r: seq<T>)
    requires Ordered(key, r)
    ensures forall j, k :: 0 <= j < |Limit(r)| <= k < |r| ==> key(Limit(r)[j]) >= key(r[k])
  {
    OrderedGlobal(key, r);
  }

  /** The first five of a list sorted latest first are in order, and each is
      at least as late as every entry left out. */
  lemma LatestFirst<T>(key: T -> int, s: seq<T>)
    ensures var r := SortBy(key, s);
            var top := Limit(r);
            (forall j, k :: 0 <= j < k < |top| ==> key(top[j]) >= key(top[k])) &&
            (forall j, k :: 0 <= j < |top| <= k < |r| ==> key(top[j]) >= key(r[k]))
  {
    var r := SortBy(key, s);
    SortByOrdered(key, s);
    OrderedGlobal(key, r);
    LimitKeepsLatest(key, r);
    var top := Limit(r);
    assert forall j :: 0 <= j < |top| ==> top[j] == r[j];
  }

  function CollectionDate(c: Collection): int
  {
    c.date
  }

  function CreateDay(t: Tenant): int
  {
    t.createDay
  }

  /** The search `[('status', '!=', 'cancelled')]`, in table order. */
  function NotCancelled(cs: seq<Collection>): (r: seq<Collection>)
    ensures |r| <= |cs|
  {
    if cs == [] then []
    else if cs[|cs| - 1].status != CollectionStatus.Cancelled then NotCancelled(cs[..|cs| - 1]) + [cs[|cs| - 1]]
    else NotCancelled(cs[..|cs| - 1])
  }

  lemma {:induction false} NotCancelledMembers(cs: seq<Collection>)
    ensures forall c :: c in NotCancelled(cs) <==> c in cs && c.status != CollectionStatus.Cancelled
  {
    if cs != [] {
      var init := cs[..|cs| - 1];
      NotCancelledMembers(init);
      assert cs == init + [cs[|cs| - 1]];
    }
  }

  /** Two sequences with the same multiset have the same members. */
  lemma PermutationMembers<T>(a: seq<T>, b: seq<T>)
    requires multiset(a) == multiset(b)
    ensures forall x :: x in a <==> x in b
  {
    forall x
      ensures x in a <==> x in b
    {
      assert x in a <==> x in multiset(a);
      assert x in b <==> x in multiset(b);
    }
  }

  /** A prefix holds only members of the whole. */
  lemma PrefixMembers<T>(r: seq<T>, n: nat)
    requires n <= |r|
    ensures forall x :: x in r[..n] ==> x in r
  {
    forall x | x in r[..n]
      ensures x in r
    {
      var i :| 0 <= i < n && r[..n][i] == x;
      assert r[i] == x;
    }
  }

  /** `search([('status', '!=', 'cancelled')], order='date desc', limit=5)`. */
  function RecentCollections(cs: seq<Collection>): (top: seq<Collection>)
    ensures |top| <= 5
    ensures forall c :: c in top ==> c in cs && c.status != CollectionStatus.Cancelled
  {
    var r := SortBy(CollectionDate, NotCancelled(cs));
    PermutationMembers(r, NotCancelled(cs));
    NotCancelledMembers(cs);
    PrefixMembers(r, |Limit(r)|);
    Limit(r)
  }

  /** `search([], order='create_date desc', limit=5)`. */
  function RecentTenants(ts: seq<Tenant>): (top: seq<Tenant>)
    ensures |top| <= 5
    ensures forall t :: t in top ==> t in ts
  {
    var r := SortBy(CreateDay, ts);
    PermutationMembers(r, ts);
    PrefixMembers(r, |Limit(r)|);
    Limit(r)
  }

  /** The recent collections are the first five, or all when there are fewer,
      of the non-cancelled collections put latest first; each of them is at
      least as late as every non-cancelled collection left out, and the list
      is empty exactly when every collection is cancelled. */
  lemma RecentCollectionsSpec(cs: seq<Collection>)
    ensures var r := SortBy(CollectionDate, NotCancelled(cs));
            var top := RecentCollections(cs);
            multiset(r) == multiset(NotCancelled(cs)) &&
            top == r[..|top|] && |top| == (if |r| < 5 then |r| else 5) &&
            (forall j, k :: 0 <= j < k < |top| ==> top[j].date >= top[k].date) &&
            (forall j, k :: 0 <= j < |top| <= k < |r| ==> top[j].date >= r[k].date)
  {
    LatestFirst(CollectionDate, NotCancelled(cs));
  }

  /** There are no recent collections exactly when every collection is cancelled. */
  lemma RecentCollectionsEmpty(cs: seq<Collection>)
    ensures RecentCollections(cs) == [] <==> forall j :: 0 <= j < |cs| ==> cs[j].status == CollectionStatus.Cancelled
  {
    var live := NotCancelled(cs);
    var r := SortBy(CollectionDate, live);
    assert |RecentCollections(cs)| == if |r| < 5 then |r| else 5;
    NotCancelledMembers(cs);
    if exists j :: 0 <= j < |cs| && cs[j].status != CollectionStatus.Cancelled {
      var j :| 0 <= j < |cs| && cs[j].status != CollectionStatus.Cancelled;
      assert cs[j] in live;
    }
    if live != [] {
      assert live[0] in cs;
      var j :| 0 <= j < |cs| && cs[j] == live[0];
      assert cs[j].status != CollectionStatus.Cancelled;
    }
  }

  /** The recent tenants are the first five, or all when there are fewer, of
      the tenants put latest created first; each is created no earlier than
      any tenant left out. */
  lemma RecentTenantsSpec(ts: seq<Tenant>)
    ensures var r := SortBy(CreateDay, ts);
            var top := RecentTenants(ts);
            multiset(r) == multiset(ts) &&
            top == r[..|top|] && |top| == (if |ts| < 5 then |ts| else 5) &&
            (forall j, k :: 0 <= j < k < |top| ==> top[j].createDay >= top[k].createDay) &&
            (forall j, k :: 0 <= j < |top| <= k < |r| ==> top[j].createDay >= r[k].createDay)
  {
    LatestFirst(CreateDay, ts);
  }

  /** One line of `recent_collections`; the amount is printed by Python's
      float formatting, given as `floatText`. */
  function CollectionLine(c: Collection, tenantName: string, floatText: Money -> string): (s: string)
    ensures |s| >= 2 && s[..2] == "• " && s[|s| - 1] == '\n'
  {
    Bulleted(IsoText(c.date) + " - " + tenantName + " - " + floatText(c.amountCollected) + " AED")
  }

  /** One line of `recent_tenants`; the status prints its selection key. */
  function TenantLine(t: Tenant): (s: string)
    ensures |s| >= 2 && s[..2] == "• " && s[|s| - 1] == '\n'
  {
    Bulleted(t.name + " - " + t.mobile + " - " + TenantStatusKey(t.status))
  }

  /** `f"• {body}\n"`. */
  function Bulleted(body: string): (s: string)
    ensures |s| == |body| + 3 && s[..2] == "• " && s[2..|s| - 1] == body && s[|s| - 1] == '\n'
  {
    "• " + body + "\n"
  }

  function TenantStatusKey(s: TenantStatus): string
  {
    match s
    case Prospect => "prospect"
    case Active => "active"
    case Inactive => "inactive"
    case Blacklisted => "blacklisted"
  }

  predicate TenantsExist(cs: seq<Collection>, ts: seq<Tenant>)
  {
    forall c :: c in cs ==> c.tenant < |ts|
  }

  function Concat(ls: seq<string>): string
  {
    if ls == [] then "" else Concat(ls[..|ls| - 1]) + ls[|ls| - 1]
  }

  /** The lines of `recent_collections`, one per recent collection. */
  function CollectionLines(cs: seq<Collection>, ts: seq<Tenant>, floatText: Money -> string): (ls: seq<string>)
    requires TenantsExist(cs, ts)
    ensures |ls| == |RecentCollections(cs)| <= 5
    ensures forall k :: 0 <= k < |ls| ==> |ls[k]| >= 2 && ls[k][..2] == "• "
  {
    var top := RecentCollections(cs);
    seq(|top|, k requires 0 <= k < |top| => CollectionLine(top[k], ts[top[k].tenant].name, floatText))
  }

  function TenantLines(ts: seq<Tenant>): (ls: seq<string>)
    ensures |ls| == |RecentTenants(ts)| <= 5
    ensures forall k :: 0 <= k < |ls| ==> |ls[k]| >= 2 && ls[k][..2] == "• "
  {
    var top := RecentTenants(ts);
    seq(|top|, k requires 0 <= k < |top| => TenantLine(top[k]))
  }

  /** `text or fallback`: the concatenated lines, or the fallback when there are none. */
  function TextOr(ls: seq<string>, fallback: string): string
  {
    var text := Concat(ls);
    if text == "" then fallback else text
  }

  /** The fallback text appears exactly when there is nothing to list:
      every line starts with a bullet, the fallback does not. */
  lemma {:induction false} TextOrFallback(ls: seq<string>, fallback: string)
    requires forall k :: 0 <= k < |ls| ==> |ls[k]| >= 2 && ls[k][..2] == "• "
    requires |fallback| >= 1 && fallback[0] != '•'
    ensures TextOr(ls, fallback) == fallback <==> ls == []
    ensures ls != [] ==> TextOr(ls, fallback)[..2] == "• "
  {
    if ls == [] {
      assert Concat(ls) == "";
    } else {
      ConcatStartsWithFirst(ls);
      var text := Concat(ls);
      assert text[0] == text[..2][0] == '•';
      assert text != fallback;
    }
  }

  lemma {:induction false} ConcatStartsWithFirst(ls: seq<string>)
    requires ls != [] && forall k :: 0 <= k < |ls| ==> |ls[k]| >= 2 && ls[k][..2] == "• "
    ensures |Concat(ls)| >= 2 && Concat(ls)[..2] == "• "
  {
    var init := ls[..|ls| - 1];
    if init == [] {
      assert Concat(ls) == "" + ls[0];
    } else {
      ConcatStartsWithFirst(init);
      assert Concat(ls)[..2] == Concat(init)[..2];
    }
  }

  /** The loop `text += line` for each line, then `text or fallback`. */
  method Render(ls: seq<string>, fallback: string) returns (text: string)
    ensures text == TextOr(ls, fallback)
  {
    text := "";
    for k := 0 to |ls|
      invariant text == Concat(ls[..k])
    {
      assert ls[..k + 1][..k] == ls[..k];
      text := text + ls[k];
    }
    assert ls[..|ls|] == ls;
    if text == "" {
      text := fallback;
    }
  }

  /** `recent_collections`. */
  function RecentCollectionsText(cs: seq<Collection>, ts: seq<Tenant>, floatText: Money -> string): string
    requires TenantsExist(cs, ts)
  {
    TextOr(CollectionLines(cs, ts, floatText), "No recent collections")
  }

  /** `recent_tenants`. */
  function RecentTenantsText(ts: seq<Tenant>): string
  {
    TextOr(TenantLines(ts), "No recent tenants")
  }

  /** The collections text is the fixed one exactly when every collection is
      cancelled, and otherwise starts with a bulleted line. */
  lemma RecentCollectionsTextSpec(cs: seq<Collection>, ts: seq<Tenant>, floatText: Money -> string)
    requires TenantsExist(cs, ts)
    ensures RecentCollectionsText(cs, ts, floatText) == "No recent collections" <==>
              forall j :: 0 <= j < |cs| ==> cs[j].status == CollectionStatus.Cancelled
  {
    RecentCollectionsEmpty(cs);
    TextOrFallback(CollectionLines(cs, ts, floatText), "No recent collections");
  }

  /** The tenants text is the fixed one exactly when there are no tenants. */
  lemma RecentTenantsTextSpec(ts: seq<Tenant>)
    ensures RecentTenantsText(ts) == "No recent tenants" <==> ts == []
  {
    RecentTenantsSpec(ts);
    TextOrFallback(TenantLines(ts), "No recent tenants");
  }

  // The figures, grouped as the `_compute_*_stats` methods group them.

  /** Collections and new tenants over the days `lo` to `hi`. */
  datatype PeriodStats = PeriodStats(collections: Money, collectionsCount: nat, newTenants: nat)

  function PeriodOn(cs: seq<Collection>, ts: seq<Tenant>, lo: int, hi: int): PeriodStats
  {
    var w := Window(cs, lo, hi);
    PeriodStats(TotalCollected(w), |w|, NewTenants(ts, lo, hi))
  }

  /** A period that starts later shows no more collections, money or new
      tenants; today's figures are therefore part of the week's and the
      month's, whose windows start on or before today. */
  lemma PeriodNesting(cs: seq<Collection>, ts: seq<Tenant>, lo1: int, lo2: int, hi: int)
    requires lo1 <= lo2
    requires forall i :: 0 <= i < |cs| ==> Collections.CheckAmountPositive(cs[i]).Pass?
    ensures var inner, outer := PeriodOn(cs, ts, lo2, hi), PeriodOn(cs, ts, lo1, hi);
            inner.collectionsCount <= outer.collectionsCount <= |cs| &&
            inner.collections <= outer.collections && inner.newTenants <= outer.newTenants
  {
    NestedWindows(cs, lo1, lo2, hi);
    NewTenantsNested(ts, lo1, lo2, hi);
  }

  method Period(cs: seq<Collection>, ts: seq<Tenant>, lo: int, hi: int) returns (p: PeriodStats)
    ensures p == PeriodOn(cs, ts, lo, hi)
  {
    var total, count := SumCollections(cs, lo, hi);
    var tenants := CountNewTenants(ts, lo, hi);
    p := PeriodStats(total, count, tenants);
  }

  datatype RoomStats = RoomStats(totalRooms: nat, occupiedRooms: nat, vacantRooms: int,
                                 occupancyRate: real, todayVacantRooms: nat)

  function RoomStatsOn(rooms: seq<Room>): RoomStats
  {
    var occupied := CountStatus(rooms, RoomStatus.Occupied);
    RoomStats(|rooms|, occupied, |rooms| - occupied, OccupancyPercent(occupied, |rooms|),
              CountStatus(rooms, RoomStatus.Vacant))
  }

  /** The room figures: vacant is all but occupied, at least the rooms in
      status vacant, and the rate is a percentage that reaches 100 exactly
      when there are rooms and every one is occupied. */
  lemma RoomStatsSpec(rooms: seq<Room>)
    ensures var r := RoomStatsOn(rooms);
            r.vacantRooms == r.totalRooms - r.occupiedRooms >= r.todayVacantRooms &&
            0.0 <= r.occupancyRate <= 100.0 &&
            (r.occupancyRate == 100.0 <==> |rooms| > 0 && forall i :: 0 <= i < |rooms| ==> rooms[i].status == RoomStatus.Occupied)
  {
    VacancyFigures(rooms);
  }

  method CountRooms(rooms: seq<Room>) returns (r: RoomStats)
    ensures r == RoomStatsOn(rooms)
  {
    var occupied, vacant := 0, 0;
    for i := 0 to |rooms|
      invariant occupied == CountStatus(rooms[..i], RoomStatus.Occupied)
      invariant vacant == CountStatus(rooms[..i], RoomStatus.Vacant)
    {
      CountStatusSnoc(rooms, i, RoomStatus.Occupied);
      CountStatusSnoc(rooms, i, RoomStatus.Vacant);
      if rooms[i].status == RoomStatus.Occupied {
        occupied := occupied + 1;
      } else if rooms[i].status == RoomStatus.Vacant {
        vacant := vacant + 1;
      }
    }
    assert rooms[..|rooms|] == rooms;
    var total := |rooms|;
    var rate := if total > 0 then (occupied as real / total as real) * 100.0 else 0.0;
    r := RoomStats(total, occupied, total - occupied, rate, vacant);
  }

  datatype Figures = Figures(
    today: PeriodStats, week: PeriodStats, month: PeriodStats, monthExpenses: Money,
    totalProperties: nat, rooms: RoomStats, totalTenants: nat,
    recentCollections: string, recentTenants: string)

  /** What the dashboard shows on `today`, given the Monday of its week and
      the 1st of its month. */
  function FiguresOn(props: seq<Property>, rooms: seq<Room>, ts: seq<Tenant>, cs: seq<Collection>,
                     es: seq<Expense>, today: Date, weekStart: int, monthStart: int,
                     floatText: Money -> string): (f: Figures)
    requires TenantsExist(cs, ts)
  {
    Figures(PeriodOn(cs, ts, today, today), PeriodOn(cs, ts, weekStart, today), PeriodOn(cs, ts, monthStart, today),
            TotalAmount(PaidExpenses(es, monthStart, today)),
            ActiveProperties(props), RoomStatsOn(rooms), ActiveTenants(ts),
            RecentCollectionsText(cs, ts, floatText), RecentTenantsText(ts))
  }

  /** The dashboard's windows start on or before today. */
  lemma WindowStarts(today: Date)
    ensures today - 6 <= WeekStart(today) <= today && Weekday(WeekStart(today)) == 0
    ensures FirstOfMonth(today) <= today && DayOf(FirstOfMonth(today)) == 1
  {
  }

  /** `default_get` on `today`. */
  method DefaultGet(props: seq<Property>, rooms: seq<Room>, ts: seq<Tenant>, cs: seq<Collection>,
                    es: seq<Expense>, today: Date, floatText: Money -> string) returns (f: Figures)
    requires TenantsExist(cs, ts)
    ensures f == FiguresOn(props, rooms, ts, cs, es, today, WeekStart(today), FirstOfMonth(today), floatText)
  {
    f := Fill(props, rooms, ts, cs, es, today, WeekStart(today), FirstOfMonth(today), floatText);
  }

  /** The body of `default_get`, filling the figures one search at a time. */
  method Fill(props: seq<Property>, rooms: seq<Room>, ts: seq<Tenant>, cs: seq<Collection>,
              es: seq<Expense>, today: Date, weekStart: int, monthStart: int,
              floatText: Money -> string) returns (f: Figures)
    requires TenantsExist(cs, ts)
    ensures f == FiguresOn(props, rooms, ts, cs, es, today, weekStart, monthStart, floatText)
  {
    var todayStats := Period(cs, ts, today, today);
    var weekStats := Period(cs, ts, weekStart, today);
    var monthStats := Period(cs, ts, monthStart, today);
    var expenses := SumPaidExpenses(es, monthStart, today);
    var roomStats := CountRooms(rooms);
    var active := CountActiveTenants(ts);
    var recentCollections := Render(CollectionLines(cs, ts, floatText), "No recent collections");
    var recentTenants := Render(TenantLines(ts), "No recent tenants");
    var properties := ActiveProperties(props);
    f := Figures(todayStats, weekStats, monthStats, expenses, properties, roomStats, active,
                 recentCollections, recentTenants);
  }
}

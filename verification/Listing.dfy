/** Listing and loading packages: tenant scope, order, paging and clearance. */
module Listing {
  import opened Text
  import opened Model

  // ---------- the clearance ladder ----------

  const LADDER: seq<string> := ["public", "internal", "confidential", "restricted", "highly_restricted"]

  function LadderRank(name: string): (rank: int)
    ensures -1 <= rank < 5 && (rank >= 0 ==> LADDER[rank] == name)
    ensures rank == -1 ==> name !in LADDER
  {
    if name == "public" then 0
    else if name == "internal" then 1
    else if name == "confidential" then 2
    else if name == "restricted" then 3
    else if name == "highly_restricted" then 4
    else -1
  }

  predicate ClearanceCovers(clearance: string, classification: string) {
    LadderRank(clearance) >= LadderRank(classification) && LadderRank(classification) >= 0
  }

  /** Covered means: both labels are on the ladder, and the clearance is not below the classification. */
  lemma CoversExactly(clearance: string, classification: string)
    ensures ClearanceCovers(clearance, classification) <==>
            exists low: nat, high: nat :: low <= high < 5 && LADDER[low] == classification && LADDER[high] == clearance
  {
    assert LadderRank(LADDER[0]) == 0 && LadderRank(LADDER[1]) == 1 && LadderRank(LADDER[2]) == 2
           && LadderRank(LADDER[3]) == 3 && LadderRank(LADDER[4]) == 4;
    if low: nat, high: nat :| low <= high < 5 && LADDER[low] == classification && LADDER[high] == clearance {
      assert LadderRank(classification) == low && LadderRank(clearance) == high;
    }
  }

  // ---------- limit and offset ----------

  function DigitsValue(digits: string): int
    requires forall c <- digits :: IsDigit(c)
  {
    if digits == "" then 0 else 10 * DigitsValue(digits[..|digits| - 1]) + (digits[|digits| - 1] as int - '0' as int)
  }

  /** strconv.Atoi on 64-bit integers: an optional sign, digits, and an error when out of range. */
  function Atoi(s: string): Option<int> {
    var digits := if s != "" && (s[0] == '+' || s[0] == '-') then s[1..] else s;
    if digits == "" || exists c <- digits :: !IsDigit(c) then None
    else
      var value := if s[0] == '-' then -DigitsValue(digits) else DigitsValue(digits);
      if -0x8000_0000_0000_0000 <= value <= 0x7FFF_FFFF_FFFF_FFFF then Some(value) else None
  }

  datatype Limits = Limits(default': int, max: int)

  /** What NewServer accepts. */
  predicate ValidLimits(l: Limits) {
    1 <= l.default' <= l.max
  }

  /** parseLimit on the raw query parameter, empty when absent. */
  function ParseLimit(l: Limits, parameter: string): int {
    var raw := TrimSpace(parameter);
    if raw == "" then l.default'
    else match Atoi(raw)
      case None => l.default'
      case Some(value) => if value <= 0 then l.default' else if value > l.max then l.max else value
  }

  /** parseOffset */
  function ParseOffset(parameter: string): (offset: int)
    ensures offset >= 0
  {
    var raw := TrimSpace(parameter);
    if raw == "" then 0
    else match Atoi(raw)
      case None => 0
      case Some(value) => if value < 0 then 0 else value
  }

  /** Whatever the caller sends, a page holds at least one row and never more than the cap. */
  lemma LimitInRange(l: Limits, parameter: string)
    requires ValidLimits(l)
    ensures 1 <= ParseLimit(l, parameter) <= l.max
  {
  }

  function Decimal(n: nat): (s: string)
    ensures s != "" && forall c <- s :: IsDigit(c)
  {
    if n < 10 then [(n + '0' as int) as char] else Decimal(n / 10) + [(n % 10 + '0' as int) as char]
  }

  lemma {:induction false} DecimalValue(n: nat)
    ensures DigitsValue(Decimal(n)) == n
  {
    if n >= 10 {
      DecimalValue(n / 10);
      var s := Decimal(n);
      assert s[..|s| - 1] == Decimal(n / 10);
    } else {
      assert Decimal(n)[..0] == "";
    }
  }

  /** An optional sign and at least one digit. */
  ghost predicate IsNumeral(s: string) {
    var digits := if s != "" && (s[0] == '+' || s[0] == '-') then s[1..] else s;
    digits != "" && forall c <- digits :: '0' <= c <= '9'
  }

  /** A parameter that is absent, blank or no numeral, or a number that 64 bits do not hold, counts as not given: the
      default limit, and no row skipped. */
  lemma UnreadableParameters(l: Limits, parameter: string)
    requires var raw := TrimSpace(parameter);
             raw == "" || !IsNumeral(raw) || (IsNumeral(raw) && Atoi(raw).None?)
    ensures ParseLimit(l, parameter) == l.default' && ParseOffset(parameter) == 0
  {
    if TrimSpace(parameter) != "" && !IsNumeral(TrimSpace(parameter)) { NotNumeral(TrimSpace(parameter)); }
    hide Atoi, IsNumeral;
  }

  lemma NotNumeral(s: string)
    requires !IsNumeral(s)
    ensures Atoi(s).None?
  {
    var digits := if s != "" && (s[0] == '+' || s[0] == '-') then s[1..] else s;
    if digits != "" {
      var c :| c in digits && !('0' <= c <= '9');
      assert !IsDigit(c);
    }
  }

  /** Every numeral that 64 bits hold is read in base ten, leading zeros and a plus sign included. */
  lemma NumeralsAreRead(sign: string, zeros: nat, n: nat)
    requires sign in ["", "+", "-"] && n < 0x8000_0000_0000_0000
    ensures IsNumeral(sign + Zeros(zeros) + Decimal(n))
    ensures var value: int := n;
            Atoi(sign + Zeros(zeros) + Decimal(n)) == Some(if sign == "-" then -value else value)
  {
    hide Decimal, DigitsValue, Zeros;
    var digits := Zeros(zeros) + Decimal(n);
    DecimalValue(n);
    ZerosDoNotCount(zeros, Decimal(n));
    assert digits != "" && forall c <- digits :: IsDigit(c);
    assert sign + Zeros(zeros) + Decimal(n) == sign + digits;
    SignedNumeral(sign, digits);
  }

  lemma SignedNumeral(sign: string, digits: string)
    requires sign in ["", "+", "-"] && digits != "" && forall c <- digits :: IsDigit(c)
    requires DigitsValue(digits) < 0x8000_0000_0000_0000 && DigitsValue(digits) >= 0
    ensures IsNumeral(sign + digits)
    ensures Atoi(sign + digits) == Some(if sign == "-" then -DigitsValue(digits) else DigitsValue(digits))
  {
    hide DigitsValue;
    var s := sign + digits;
    if sign == "" {
      assert digits[0] in digits && s == digits;
    } else {
      assert s[0] == sign[0] && s[1..] == digits;
    }
  }

  function Zeros(n: nat): (zeros: string)
    ensures |zeros| == n && forall c <- zeros :: c == '0'
  {
    seq(n, _ => '0')
  }

  lemma {:induction false} ZerosDoNotCount(zeros: nat, digits: string)
    requires forall c <- digits :: IsDigit(c)
    ensures DigitsValue(Zeros(zeros) + digits) == DigitsValue(digits)
    decreases |digits|, zeros
  {
    var s := Zeros(zeros) + digits;
    if digits != "" {
      assert s[..|s| - 1] == Zeros(zeros) + digits[..|digits| - 1];
      ZerosDoNotCount(zeros, digits[..|digits| - 1]);
    } else if zeros > 0 {
      assert s[..|s| - 1] == Zeros(zeros - 1) + digits;
      ZerosDoNotCount(zeros - 1, digits);
    }
  }

  /** A number written in decimal is understood, whatever space surrounds it: the limit up to the cap, the offset
      exactly. */
  lemma DecimalParameters(l: Limits, n: nat, parameter: string)
    requires ValidLimits(l) && n <= 0x7FFF_FFFF_FFFF_FFFF && TrimSpace(parameter) == Decimal(n)
    ensures ParseOffset(parameter) == n
    ensures n >= 1 ==> ParseLimit(l, parameter) == if n <= l.max then n else l.max
  {
    DecimalValue(n);
    var s := Decimal(n);
    assert IsDigit(s[0]);
  }

  /** A negative number is no offset and no limit. */
  lemma NegativeParameters(l: Limits, n: nat, parameter: string)
    requires n >= 1 && TrimSpace(parameter) == "-" + Decimal(n)
    ensures ParseOffset(parameter) == 0 && ParseLimit(l, parameter) == l.default'
  {
    DecimalValue(n);
    assert ("-" + Decimal(n))[1..] == Decimal(n);
  }

  // ---------- the order of a listing ----------

  /** ORDER BY received_at DESC, evidence_package_id. */
  predicate Before(p: Package, q: Package) {
    p.receivedAt > q.receivedAt || (p.receivedAt == q.receivedAt && p.id < q.id)
  }

  predicate InOrder(rows: seq<Package>) {
    forall i, k | 0 <= i < k < |rows| :: Before(rows[i], rows[k])
  }

  /** The table's primary key is the row's own id. */
  predicate Keyed(packages: map<Id, Package>) {
    forall id <- packages :: packages[id].id == id
  }

  predicate OfTenant(packages: map<Id, Package>, tenant: string, p: Package) {
    p.id in packages && packages[p.id] == p && p.tenantId == tenant
  }

  /** The rows of a tenant, each once, in order. */
  ghost predicate IsListing(packages: map<Id, Package>, tenant: string, rows: seq<Package>) {
    InOrder(rows) && forall p :: p in rows <==> OfTenant(packages, tenant, p)
  }

  lemma BothEmpty(a: seq<Package>, b: seq<Package>)
    requires forall p :: p in a <==> p in b
    ensures a == [] <==> b == []
  {
    if a != [] { assert a[0] in b; }
    if b != [] { assert b[0] in a; }
  }

  lemma FirstIsLeast(a: seq<Package>, b: seq<Package>)
    requires InOrder(a) && InOrder(b) && a != [] && b != [] && forall p :: p in a <==> p in b
    ensures a[0] == b[0]
  {
    assert a[0] in b && b[0] in a;
    var i :| 0 <= i < |b| && b[i] == a[0];
    var k :| 0 <= k < |a| && a[k] == b[0];
  }

  lemma RowsAfterFirst(rows: seq<Package>)
    requires InOrder(rows) && rows != []
    ensures forall p :: p in rows[1..] <==> p in rows && p != rows[0]
  {
    forall p | p in rows[1..] ensures p != rows[0] {
      var i :| 0 <= i < |rows[1..]| && rows[1..][i] == p;
      assert rows[i + 1] == p && Before(rows[0], rows[i + 1]);
    }
  }

  lemma {:induction false} SameRows(a: seq<Package>, b: seq<Package>)
    requires InOrder(a) && InOrder(b) && forall p :: p in a <==> p in b
    ensures a == b
  {
    BothEmpty(a, b);
    if a == [] {
    } else {
      FirstIsLeast(a, b);
      RowsAfterFirst(a);
      RowsAfterFirst(b);
      SameRows(a[1..], b[1..]);
      assert a == [a[0]] + a[1..] && b == [b[0]] + b[1..];
    }
  }

  lemma {:induction false} FirstExists(packages: map<Id, Package>, ids: set<Id>) returns (first: Id)
    requires Keyed(packages) && ids != {} && ids <= packages.Keys
    ensures first in ids && forall id <- ids :: id != first ==> Before(packages[first], packages[id])
    decreases |ids|
  {
    var id :| id in ids;
    if ids == {id} { return id; }
    first := FirstExists(packages, ids - {id});
    if Before(packages[id], packages[first]) { first := id; }
  }

  lemma {:induction false} ArrangementExists(packages: map<Id, Package>, ids: set<Id>) returns (rows: seq<Package>)
    requires Keyed(packages) && ids <= packages.Keys
    ensures InOrder(rows) && forall p :: p in rows <==> p.id in ids && packages[p.id] == p
    decreases |ids|
  {
    if ids == {} { return []; }
    var first := FirstExists(packages, ids);
    var rest := ArrangementExists(packages, ids - {first});
    rows := [packages[first]] + rest;
    assert forall i | 0 <= i < |rest| :: rest[i] in rest && Before(packages[first], rest[i]);
  }

  /** Every table with a primary key has a listing of each tenant. */
  lemma ListingExists(packages: map<Id, Package>, tenant: string) returns (rows: seq<Package>)
    requires Keyed(packages)
    ensures IsListing(packages, tenant, rows)
  {
    rows := ArrangementExists(packages, set id <- packages | packages[id].tenantId == tenant);
  }

  /** The newest come first: of two rows of a listing the earlier one was received later, or at the same time and has
      the smaller id; so of two packages of the tenant the one received later is listed first. */
  lemma NewestFirst(packages: map<Id, Package>, tenant: string, rows: seq<Package>, i: nat, k: nat)
    requires IsListing(packages, tenant, rows) && i < |rows| && k < |rows|
    ensures i < k <==> rows[i].receivedAt > rows[k].receivedAt
                       || (rows[i].receivedAt == rows[k].receivedAt && rows[i].id < rows[k].id)
  {
    hide OfTenant;
    if i < k { assert Before(rows[i], rows[k]); }
    if k < i { assert Before(rows[k], rows[i]); }
  }

  /** A tenant's listing is determined by the tenant's rows: what other tenants store never shows. */
  lemma ListingOfTenant(packages: map<Id, Package>, packages': map<Id, Package>, tenant: string, rows: seq<Package>,
                        rows': seq<Package>)
    requires IsListing(packages, tenant, rows) && IsListing(packages', tenant, rows')
    requires forall p :: OfTenant(packages, tenant, p) <==> OfTenant(packages', tenant, p)
    ensures rows == rows'
  {
    hide OfTenant, InOrder;
    SameRows(rows, rows');
  }

  // ---------- pages ----------

  function Clip(n: int, length: nat): nat {
    if n < 0 then 0 else if n > length then length else n
  }

  /** LIMIT and OFFSET. */
  function Page(rows: seq<Package>, limit: nat, offset: nat): seq<Package> {
    rows[Clip(offset, |rows|)..Clip(offset + limit, |rows|)]
  }

  /** Row i of a page is row offset + i; only the last page is short. */
  lemma PageHolds(rows: seq<Package>, limit: nat, offset: nat)
    ensures |Page(rows, limit, offset)|
            == if offset >= |rows| then 0 else if offset + limit > |rows| then |rows| - offset else limit
    ensures forall i | 0 <= i < |Page(rows, limit, offset)| :: Page(rows, limit, offset)[i] == rows[offset + i]
  {
  }

  /** The rows the clearance covers, in order. */
  function Visible(clearance: string, rows: seq<Package>): seq<Package> {
    if rows == [] then []
    else Visible(clearance, rows[..|rows| - 1]) + IfCovered(clearance, rows[|rows| - 1])
  }

  function IfCovered(clearance: string, p: Package): seq<Package> {
    if ClearanceCovers(clearance, p.classification) then [p] else []
  }

  lemma {:induction false} VisibleExactly(clearance: string, rows: seq<Package>)
    ensures forall p :: p in Visible(clearance, rows) <==> p in rows && ClearanceCovers(clearance, p.classification)
  {
    hide ClearanceCovers;
    if rows != [] {
      var front, last := rows[..|rows| - 1], rows[|rows| - 1];
      VisibleExactly(clearance, front);
      assert rows == front + [last];
    }
  }

  lemma {:induction false} VisibleAppend(clearance: string, a: seq<Package>, b: seq<Package>)
    ensures Visible(clearance, a + b) == Visible(clearance, a) + Visible(clearance, b)
  {
    hide IfCovered;
    if b == [] {
      assert a + b == a;
    } else {
      var front, last := b[..|b| - 1], b[|b| - 1];
      assert (a + b)[..|a + b| - 1] == a + front && (a + b)[|a + b| - 1] == last;
      VisibleAppend(clearance, a, front);
    }
  }

  lemma {:induction false} VisibleInOrder(clearance: string, rows: seq<Package>)
    requires InOrder(rows)
    ensures InOrder(Visible(clearance, rows))
  {
    if rows != [] {
      var front, last := rows[..|rows| - 1], rows[|rows| - 1];
      VisibleInOrder(clearance, front);
      VisibleExactly(clearance, front);
      hide ClearanceCovers;
      forall p | p in Visible(clearance, front) ensures Before(p, last) {
        var i :| 0 <= i < |front| && front[i] == p;
        assert rows[i] == p;
      }
    }
  }

  /** A reader going through the pages at offsets 0, limit, 2 limit, and so on. */
  function Paged(clearance: string, rows: seq<Package>, limit: nat, pages: nat): seq<Package> {
    if pages == 0 then []
    else Paged(clearance, rows, limit, pages - 1) + Visible(clearance, Page(rows, limit, (pages - 1) * limit))
  }

  lemma PageExtends(clearance: string, rows: seq<Package>, limit: nat, offset: nat)
    ensures Visible(clearance, rows[..Clip(offset, |rows|)]) + Visible(clearance, Page(rows, limit, offset))
            == Visible(clearance, rows[..Clip(offset + limit, |rows|)])
  {
    var from, to := Clip(offset, |rows|), Clip(offset + limit, |rows|);
    assert rows[..to] == rows[..from] + rows[from..to];
    VisibleAppend(clearance, rows[..from], rows[from..to]);
  }

  lemma {:induction false} PagedPrefix(clearance: string, rows: seq<Package>, limit: nat, pages: nat)
    ensures Paged(clearance, rows, limit, pages) == Visible(clearance, rows[..Clip(pages * limit, |rows|)])
  {
    hide Visible, Page;
    if pages == 0 {
      assert 0 * limit == 0;
      assert rows[..0] == [] && Visible(clearance, []) == [] by { NothingVisible(clearance); }
    } else {
      PagedPrefix(clearance, rows, limit, pages - 1);
      assert (pages - 1) * limit + limit == pages * limit;
      PageExtends(clearance, rows, limit, (pages - 1) * limit);
    }
  }

  lemma NothingVisible(clearance: string)
    ensures Visible(clearance, []) == []
  {
  }

  /** Paging is complete and exact while nothing is written: enough pages, of any limit the server grants, give
      each of the tenant's packages that the clearance covers, once, in order, and nothing else. */
  lemma PagingIsExact(packages: map<Id, Package>, tenant: string, rows: seq<Package>, clearance: string, l: Limits,
                      parameter: string, pages: nat)
    requires IsListing(packages, tenant, rows) && ValidLimits(l)
    requires pages * ParseLimit(l, parameter) >= |rows|
    ensures var all := Paged(clearance, rows, ParseLimit(l, parameter), pages);
            InOrder(all) && forall p ::
                 p in all <==> OfTenant(packages, tenant, p) && ClearanceCovers(clearance, p.classification)
  {
    hide OfTenant, ParseLimit, ClearanceCovers, InOrder;
    LimitInRange(l, parameter);
    PagedPrefix(clearance, rows, ParseLimit(l, parameter), pages);
    assert rows[..|rows|] == rows;
    VisibleInOrder(clearance, rows);
    VisibleExactly(clearance, rows);
  }

  /** A lower clearance sees a subsequence of what a higher one sees: filtering again gives the same rows. */
  lemma {:induction false} HigherClearanceSeesMore(low: string, high: string, rows: seq<Package>)
    requires LadderRank(low) <= LadderRank(high)
    ensures Visible(low, Visible(high, rows)) == Visible(low, rows)
  {
    if rows != [] {
      var front, last := rows[..|rows| - 1], rows[|rows| - 1];
      HigherClearanceSeesMore(low, high, front);
      OneRow(low, last);
      NothingVisible(low);
      VisibleAppend(low, Visible(high, front), IfCovered(high, last));
    }
  }

  lemma OneRow(clearance: string, p: Package)
    ensures Visible(clearance, [p]) == IfCovered(clearance, p)
  {
    assert [p][..0] == [];
    NothingVisible(clearance);
  }

  // ---------- List and listPackages ----------

  /** The row that comes first. */
  method First(packages: map<Id, Package>, ids: set<Id>) returns (first: Id)
    requires Keyed(packages) && ids != {} && ids <= packages.Keys
    ensures first in ids && forall id <- ids :: id != first ==> Before(packages[first], packages[id])
  {
    first :| first in ids;
    var rest := ids - {first};
    while rest != {}
      invariant rest <= ids && first in ids
      invariant forall id <- ids :: id !in rest && id != first ==> Before(packages[first], packages[id])
      decreases |rest|
    {
      var id :| id in rest;
      if Before(packages[id], packages[first]) { first := id; }
      rest := rest - {id};
    }
  }

  /** SELECT ... WHERE tenant_id = $1 ORDER BY received_at DESC, evidence_package_id. */
  method Select(packages: map<Id, Package>, tenant: string) returns (rows: seq<Package>)
    requires Keyed(packages)
    ensures IsListing(packages, tenant, rows)
  {
    var rest := set id <- packages | packages[id].tenantId == tenant;
    rows := [];
    while rest != {}
      invariant rest <= packages.Keys && InOrder(rows)
      invariant forall id <- rest :: packages[id].tenantId == tenant
      invariant forall p <- rows, id <- rest :: Before(p, packages[id])
      invariant forall p :: OfTenant(packages, tenant, p) <==> p in rows || (p.id in rest && packages[p.id] == p)
      decreases |rest|
    {
      var first := First(packages, rest);
      assert forall i | 0 <= i < |rows| :: rows[i] in rows && Before(rows[i], packages[first]);
      rows, rest := rows + [packages[first]], rest - {first};
    }
  }

  /** Store.List: an error for a blank tenant, and otherwise the page of the one listing. */
  method List(packages: map<Id, Package>, tenant: string, limit: nat, offset: nat)
    returns (records: Option<seq<Package>>)
    requires Keyed(packages)
    ensures records.Some? <==> !Blank(tenant)
    ensures records.Some? ==>
      forall rows | IsListing(packages, tenant, rows) :: records.value == Page(rows, limit, offset)
  {
    hide OfTenant, InOrder;
    if Blank(tenant) { return None; }
    var rows := Select(packages, tenant);
    var page := [];
    var next := Clip(offset, |rows|);
    while next < |rows| && |page| < limit
      invariant Clip(offset, |rows|) <= next <= |rows| && next - Clip(offset, |rows|) == |page| <= limit
      invariant page == rows[Clip(offset, |rows|)..next]
    {
      page, next := page + [rows[next]], next + 1;
    }
    assert page == Page(rows, limit, offset);
    forall other | IsListing(packages, tenant, other) ensures other == rows { SameRows(other, rows); }
    return Some(page);
  }

  /** listPackages: the page of the principal's tenant, without the rows above the clearance. */
  method ListPackages(packages: map<Id, Package>, tenant: string, clearance: string, l: Limits, limitParameter: string,
                      offsetParameter: string)
    returns (visible: Option<seq<Package>>)
    requires Keyed(packages) && ValidLimits(l)
    ensures visible.Some? <==> !Blank(tenant)
    ensures visible.Some? ==> forall rows | IsListing(packages, tenant, rows) ::
      visible.value == Visible(clearance, Page(rows, ParseLimit(l, limitParameter), ParseOffset(offsetParameter)))
  {
    hide OfTenant, InOrder, ParseLimit, ParseOffset, ClearanceCovers, Page, IsListing;
    LimitInRange(l, limitParameter);
    var limit, offset := ParseLimit(l, limitParameter), ParseOffset(offsetParameter);
    var listed := List(packages, tenant, limit, offset);
    if listed.None? { return None; }
    var records, covered := listed.value, [];
    for i := 0 to |records|
      invariant covered == Visible(clearance, records[..i])
    {
      assert records[..i + 1][..i] == records[..i];
      if ClearanceCovers(clearance, records[i].classification) { covered := covered + [records[i]]; }
    }
    assert records[..|records|] == records;
    return Some(covered);
  }

  // ---------- loading one package ----------

  datatype LoadResult = Loaded(record: Package) | NotFound | Forbidden

  /** loadPackage */
  function LoadPackage(packages: map<Id, Package>, id: Id, tenant: string, clearance: string): LoadResult {
    if id !in packages then NotFound
    else if packages[id].tenantId != tenant then NotFound
    else if !ClearanceCovers(clearance, packages[id].classification) then Forbidden
    else Loaded(packages[id])
  }

  /** The answer is a function of the tenant's own rows: it cannot tell another tenant's package from none. */
  lemma LoadIsTenantScoped(packages: map<Id, Package>, packages': map<Id, Package>, id: Id, tenant: string,
                           clearance: string)
    requires Keyed(packages) && Keyed(packages')
    requires forall p :: OfTenant(packages, tenant, p) <==> OfTenant(packages', tenant, p)
    ensures LoadPackage(packages, id, tenant, clearance) == LoadPackage(packages', id, tenant, clearance)
  {
    if id in packages && packages[id].tenantId == tenant { assert OfTenant(packages, tenant, packages[id]); }
    if id in packages' && packages'[id].tenantId == tenant { assert OfTenant(packages', tenant, packages'[id]); }
  }

  /** Loading and listing agree: a package loads exactly when the pages show it. */
  lemma LoadedIsListed(packages: map<Id, Package>, id: Id, tenant: string, clearance: string, rows: seq<Package>)
    requires Keyed(packages) && IsListing(packages, tenant, rows)
    ensures LoadPackage(packages, id, tenant, clearance).Loaded? <==>
      id in packages && packages[id] in Visible(clearance, rows)
    ensures LoadPackage(packages, id, tenant, clearance).NotFound? <==> !(id in packages && packages[id] in rows)
    ensures LoadPackage(packages, id, tenant, clearance).Loaded? ==>
      LoadPackage(packages, id, tenant, clearance).record == packages[id]
  {
    VisibleExactly(clearance, rows);
    hide ClearanceCovers, InOrder;
    if id in packages { assert OfTenant(packages, tenant, packages[id]) <==> packages[id] in rows; }
  }
}

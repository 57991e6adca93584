// The startup migrations that move integration rows from their user to the organizations of that
// user: one loop over the rows, one copy per further organization, fresh ids from a counter.
module OrgFanOut {
  import opened Wrappers
  import opened Memberships

  // `data` holds the columns other than the id, the user and the organization.
  datatype Row = Row(id: int, user: Option<int>, org: Option<int>, data: seq<string>)

  // Ids below 1 read as missing.
  function Pick(v: Option<int>): Option<int> {
    if v.Some? && v.value >= 1 then v else None
  }

  predicate Scoped(row: Row) {
    Pick(row.org).Some?
  }

  // The organizations of a user; `links` is in creation order.
  function OrgsOf(links: seq<Membership>, user: int): (r: seq<int>)
    ensures forall o :: o in r <==> Membership(user, o) in links
  {
    if links == [] then []
    else if links[0].user == user then [links[0].org] + OrgsOf(links[1..], user)
    else OrgsOf(links[1..], user)
  }

  function Targets(links: seq<Membership>, row: Row): seq<int> {
    if Pick(row.user).None? then [] else OrgsOf(links, Pick(row.user).value)
  }

  // ----- the table -----------------------------------------------------------

  predicate DistinctIds(rows: seq<Row>) {
    forall i, j :: 0 <= i < j < |rows| ==> rows[i].id != rows[j].id
  }

  function Without(rows: seq<Row>, id: int): seq<Row> {
    if rows == [] then []
    else (if rows[0].id == id then [] else [rows[0]]) + Without(rows[1..], id)
  }

  function WithOrg(rows: seq<Row>, id: int, org: int): seq<Row> {
    if rows == [] then []
    else [if rows[0].id == id then rows[0].(org := Some(org)) else rows[0]] + WithOrg(rows[1..], id, org)
  }

  function MaxId(rows: seq<Row>): (m: int)
    ensures m >= 0
    ensures forall r :: r in rows ==> r.id <= m
  {
    if rows == [] then 0
    else
      var n := MaxId(rows[..|rows| - 1]);
      var last := rows[|rows| - 1].id;
      if last > n then last else n
  }

  // ----- what the loop computes ----------------------------------------------

  // What one source row leaves at its own place.
  function Settled(links: seq<Membership>, row: Row): seq<Row> {
    if Scoped(row) then [row]
    else if Targets(links, row) == [] then []
    else [row.(org := Some(Targets(links, row)[0]))]
  }

  function Further(links: seq<Membership>, row: Row): seq<int> {
    if Scoped(row) || Targets(links, row) == [] then [] else Targets(links, row)[1..]
  }

  function Copies(row: Row, orgs: seq<int>, next: int): seq<Row> {
    seq(|orgs|, k requires 0 <= k < |orgs| => Row(next + k, None, Some(orgs[k]), row.data))
  }

  function Kept(links: seq<Membership>, rows: seq<Row>): seq<Row> {
    if rows == [] then []
    else Kept(links, rows[..|rows| - 1]) + Settled(links, rows[|rows| - 1])
  }

  function Extras(links: seq<Membership>, rows: seq<Row>, next: int): seq<Row> {
    if rows == [] then []
    else
      var before := Extras(links, rows[..|rows| - 1], next);
      var last := rows[|rows| - 1];
      before + Copies(last, Further(links, last), next + |before|)
  }

  // The table once the first `n` source rows are done.
  function Partial(links: seq<Membership>, rows: seq<Row>, n: nat): seq<Row>
    requires n <= |rows|
  {
    Kept(links, rows[..n]) + rows[n..] + Extras(links, rows[..n], MaxId(rows) + 1)
  }

  function FanOut(links: seq<Membership>, rows: seq<Row>): seq<Row> {
    Kept(links, rows) + Extras(links, rows, MaxId(rows) + 1)
  }

  // ----- the migration -------------------------------------------------------

  // `history` records the table as it was made and after every single write.
  class SettingsTable {
    var rows: seq<Row>
    ghost var history: seq<seq<Row>>

    constructor (rows: seq<Row>)
      ensures this.rows == rows && history == [rows]
    {
      this.rows := rows;
      history := [rows];
    }

    method Delete(id: int)
      modifies this
      ensures rows == Without(old(rows), id) && history == old(history) + [rows]
    {
      rows := Without(rows, id);
      history := history + [rows];
    }

    method SetOrganization(id: int, org: int)
      modifies this
      ensures rows == WithOrg(old(rows), id, org) && history == old(history) + [rows]
    {
      rows := WithOrg(rows, id, org);
      history := history + [rows];
    }

    method SelectById(id: int) returns (row: Row)
      requires exists r :: r in rows && r.id == id
      ensures row in rows && row.id == id
    {
      row :| row in rows && row.id == id;
    }

    method Insert(row: Row)
      modifies this
      ensures rows == old(rows) + [row] && history == old(history) + [rows]
    {
      rows := rows + [row];
      history := history + [rows];
    }
  }

  // The table passes through the state between any two of the first `n` source rows, and through every
  // state inside one of them at which the process can die.
  ghost predicate PassesThrough(links: seq<Membership>, rows: seq<Row>, n: nat, history: seq<seq<Row>>)
    requires n <= |rows|
  {
    && (forall k :: 0 <= k <= n ==> Partial(links, rows, k) in history)
    && forall k, done :: 0 <= k < n && Stoppable(links, rows, k, done) ==> Torn(links, rows, k, done) in history
  }

  method MigrateToOrganizationScope(table: SettingsTable, links: seq<Membership>)
    requires DistinctIds(table.rows) && table.rows in table.history
    modifies table
    ensures table.rows == FanOut(links, old(table.rows))
    ensures DistinctIds(table.rows)
    ensures PassesThrough(links, old(table.rows), |old(table.rows)|, table.history)
  {
    hide DistinctIds, MaxId, Kept, Extras, Without, WithOrg, Copies, Partial, OrgsOf, FanOut, Torn, Stoppable, PassesThrough;
    var rows := table.rows;
    var maxId := HighestId(rows);
    ghost var base := maxId + 1;
    PartialEnds(links, rows);
    PassesStart(links, rows, table.history);
    for i := 0 to |rows|
      invariant table.rows == Partial(links, rows, i)
      invariant maxId + 1 == base + |Extras(links, rows[..i], base)|
      invariant table.rows in table.history && PassesThrough(links, rows, i, table.history)
    {
      var row := rows[i];
      ghost var before := table.history;
      PartialStep(links, rows, i);
      if Scoped(row) {
        PassesIdle(links, rows, i, before, table.history);
        continue;
      }
      var uid := Pick(row.user);
      if uid.None? {
        table.Delete(row.id);
        PassesIdle(links, rows, i, before, table.history);
        continue;
      }
      var orgIds := OrgsOf(links, uid.value);
      if |orgIds| == 0 {
        table.Delete(row.id);
        PassesIdle(links, rows, i, before, table.history);
        continue;
      }
      table.SetOrganization(row.id, orgIds[0]);
      SourceRow(links, rows, i, orgIds[0]);
      var src := table.SelectById(row.id);
      ghost var updated, highest := table.rows, maxId;
      maxId := CopyToOrganizations(table, src, orgIds[1..], maxId);
      PrefixIn(before, table.history);
      PassesCopies(links, rows, i, orgIds, src, updated, highest, before, table.history);
    }
    FanOutKeepsIdsDistinct(links, rows);
  }

  lemma PrefixIn<T>(a: seq<T>, b: seq<T>)
    requires a <= b
    ensures forall x :: x in a ==> x in b
  {
    assert forall k :: 0 <= k < |a| ==> a[k] == b[k];
  }

  lemma PassesStart(links: seq<Membership>, rows: seq<Row>, history: seq<seq<Row>>)
    requires rows in history
    ensures PassesThrough(links, rows, 0, history)
  {
    PartialEnds(links, rows);
  }

  // A row that has an organization already, or none to get, is no place to die in.
  lemma PassesIdle(links: seq<Membership>, rows: seq<Row>, i: nat, before: seq<seq<Row>>, history: seq<seq<Row>>)
    requires i < |rows| && PassesThrough(links, rows, i, before) && (forall h :: h in before ==> h in history)
    requires Scoped(rows[i]) || Targets(links, rows[i]) == []
    requires Partial(links, rows, i + 1) in history
    ensures PassesThrough(links, rows, i + 1, history)
  {
    hide Partial, Torn;
  }

  lemma PassesCopies(links: seq<Membership>, rows: seq<Row>, i: nat, orgIds: seq<int>, src: Row, updated: seq<Row>, highest: int,
                     before: seq<seq<Row>>, history: seq<seq<Row>>)
    requires i < |rows| && DistinctIds(rows) && PassesThrough(links, rows, i, before) && (forall h :: h in before ==> h in history)
    requires !Scoped(rows[i]) && orgIds == Targets(links, rows[i]) != []
    requires updated == WithOrg(Partial(links, rows, i), rows[i].id, orgIds[0]) && src in updated && src.id == rows[i].id
    requires highest + 1 == MaxId(rows) + 1 + |Extras(links, rows[..i], MaxId(rows) + 1)|
    requires forall k :: 0 <= k <= |orgIds| - 1 ==> updated + Copies(src, orgIds[1..][..k], highest + 1) in history
    requires Partial(links, rows, i + 1) in history
    ensures PassesThrough(links, rows, i + 1, history)
  {
    hide DistinctIds, MaxId, Kept, Extras, Without, WithOrg, Copies, Partial, Torn;
    SourceRow(links, rows, i, orgIds[0]);
    forall done: nat | Stoppable(links, rows, i, done) ensures Torn(links, rows, i, done) in history {
      TornIs(links, rows, i, done);
      assert updated + Copies(src, orgIds[1..][..done], highest + 1) in history;
    }
  }

  lemma TornIs(links: seq<Membership>, rows: seq<Row>, i: nat, done: nat)
    requires DistinctIds(rows) && Stoppable(links, rows, i, done)
    ensures var orgs := Targets(links, rows[i]);
            Torn(links, rows, i, done) ==
            WithOrg(Partial(links, rows, i), rows[i].id, orgs[0])
            + Copies(rows[i], orgs[1..][..done], MaxId(rows) + 1 + |Extras(links, rows[..i], MaxId(rows) + 1)|)
  {
    hide DistinctIds, MaxId, Kept, Extras, WithOrg, Without, Copies, Targets;
    var row, orgs := rows[i], Targets(links, rows[i]);
    var a, b, c := Kept(links, rows[..i]), rows[i + 1..], Extras(links, rows[..i], MaxId(rows) + 1);
    IdNowhereElse(links, rows, i);
    RowAlone(a, row, b, c, orgs[0]);
    assert rows[i..] == [row] + b;
    assert orgs[1..][..done] == orgs[1..done + 1];
    Regrouped(a, [row.(org := Some(orgs[0]))], b, c);
  }

  lemma Regrouped(a: seq<Row>, first: seq<Row>, b: seq<Row>, c: seq<Row>)
    ensures a + first + b + c == a + (first + b) + c
  {
  }

  method HighestId(rows: seq<Row>) returns (maxId: int)
    ensures maxId == MaxId(rows)
  {
    maxId := 0;
    for i := 0 to |rows|
      invariant maxId == MaxId(rows[..i])
    {
      assert rows[..i + 1][..i] == rows[..i];
      if rows[i].id > maxId {
        maxId := rows[i].id;
      }
    }
    assert rows[..|rows|] == rows;
  }

  // One insert per further organization.
  method CopyToOrganizations(table: SettingsTable, src: Row, orgs: seq<int>, highest: int) returns (maxId: int)
    requires table.rows in table.history
    modifies table
    ensures table.rows == old(table.rows) + Copies(src, orgs, highest + 1)
    ensures maxId == highest + |orgs|
    ensures old(table.history) <= table.history && table.rows in table.history
    ensures forall k :: 0 <= k <= |orgs| ==> old(table.rows) + Copies(src, orgs[..k], highest + 1) in table.history
  {
    maxId := highest;
    assert old(table.rows) + Copies(src, orgs[..0], highest + 1) == old(table.rows);
    for k := 0 to |orgs|
      invariant table.rows == old(table.rows) + Copies(src, orgs[..k], highest + 1)
      invariant maxId == highest + k
      invariant old(table.history) <= table.history && table.rows in table.history
      invariant forall m :: 0 <= m <= k ==> old(table.rows) + Copies(src, orgs[..m], highest + 1) in table.history
    {
      maxId := maxId + 1;
      var vals: seq<string> := [];
      for c := 0 to |src.data|
        invariant vals == src.data[..c]
      {
        vals := vals + [src.data[c]];
      }
      assert src.data[..|src.data|] == src.data;
      table.Insert(Row(maxId, None, Some(orgs[k]), vals));
      assert Copies(src, orgs[..k + 1], highest + 1) == Copies(src, orgs[..k], highest + 1) + [Row(maxId, None, Some(orgs[k]), vals)];
    }
    assert orgs[..|orgs|] == orgs;
  }

  lemma KeptSnoc(links: seq<Membership>, rows: seq<Row>, row: Row)
    ensures Kept(links, rows + [row]) == Kept(links, rows) + Settled(links, row)
  {
    hide Settled;
    assert (rows + [row])[..|rows + [row]| - 1] == rows;
  }

  lemma ExtrasSnoc(links: seq<Membership>, rows: seq<Row>, row: Row, next: int)
    ensures var before := Extras(links, rows, next);
            Extras(links, rows + [row], next) == before + Copies(row, Further(links, row), next + |before|)
  {
    hide Copies, Further;
    assert (rows + [row])[..|rows + [row]| - 1] == rows;
  }

  // The three parts of the table while row `i` is being handled.
  lemma PartialStep(links: seq<Membership>, rows: seq<Row>, i: nat)
    requires i < |rows| && DistinctIds(rows)
    ensures var base := MaxId(rows) + 1;
            var t := Partial(links, rows, i);
            var t' := Partial(links, rows, i + 1);
            var extras := Extras(links, rows[..i], base);
            && |Extras(links, rows[..i + 1], base)| == |extras| + |Further(links, rows[i])|
            && (Scoped(rows[i]) ==> t' == t && Further(links, rows[i]) == [])
            && (!Scoped(rows[i]) && Targets(links, rows[i]) == [] ==>
                  t' == Without(t, rows[i].id) && Further(links, rows[i]) == [])
            && (!Scoped(rows[i]) && Targets(links, rows[i]) != [] ==>
                  t' == WithOrg(t, rows[i].id, Targets(links, rows[i])[0]) + Copies(rows[i], Targets(links, rows[i])[1..], base + |extras|))
  {
    hide DistinctIds, MaxId, Kept, Extras, Without, WithOrg, Targets;
    var row, base := rows[i], MaxId(rows) + 1;
    var a, b, c := Kept(links, rows[..i]), rows[i + 1..], Extras(links, rows[..i], base);
    assert rows[..i + 1] == rows[..i] + [row] && rows[i..] == [row] + b;
    KeptSnoc(links, rows[..i], row);
    ExtrasSnoc(links, rows[..i], row, base);
    IdNowhereElse(links, rows, i);
    var copies := Copies(row, Further(links, row), base + |c|);
    assert |copies| == |Further(links, row)|;
    RowAlone(a, row, b, c, if Targets(links, row) == [] then 0 else Targets(links, row)[0]);
  }
  lemma {:induction false} WithoutConcat(a: seq<Row>, b: seq<Row>, id: int)
    ensures Without(a + b, id) == Without(a, id) + Without(b, id)
  {
    if a == [] {
      assert a + b == b;
    } else {
      assert (a + b)[1..] == a[1..] + b;
      WithoutConcat(a[1..], b, id);
    }
  }

  lemma {:induction false} WithOrgConcat(a: seq<Row>, b: seq<Row>, id: int, org: int)
    ensures WithOrg(a + b, id, org) == WithOrg(a, id, org) + WithOrg(b, id, org)
  {
    if a == [] {
      assert a + b == b;
    } else {
      assert (a + b)[1..] == a[1..] + b;
      WithOrgConcat(a[1..], b, id, org);
    }
  }

  lemma {:induction false} UntouchedElsewhere(rows: seq<Row>, id: int, org: int)
    requires forall r :: r in rows ==> r.id != id
    ensures Without(rows, id) == rows && WithOrg(rows, id, org) == rows
  {
    if rows != [] {
      UntouchedElsewhere(rows[1..], id, org);
    }
  }

  // The ids left at their own place are ids of source rows, in order.
  lemma {:induction false} KeptFrom(links: seq<Membership>, rows: seq<Row>, r: Row)
    requires r in Kept(links, rows)
    ensures exists s :: s in rows && r == s.(org := r.org)
  {
    var init := rows[..|rows| - 1];
    var last := rows[|rows| - 1];
    if r in Kept(links, init) {
      KeptFrom(links, init, r);
      var s :| s in init && r == s.(org := r.org);
      assert s in rows;
    } else {
      assert r in Settled(links, last) && last in rows;
    }
  }

  lemma {:induction false} ExtrasIds(links: seq<Membership>, rows: seq<Row>, next: int)
    ensures forall k :: 0 <= k < |Extras(links, rows, next)| ==> Extras(links, rows, next)[k].id == next + k
    ensures forall k :: 0 <= k < |Extras(links, rows, next)| ==> Extras(links, rows, next)[k].user == None
  {
    if rows != [] {
      ExtrasIds(links, rows[..|rows| - 1], next);
    }
  }

  // While row `i` is being handled, no other row of the table carries its id.
  lemma {:induction false} IdNowhereElse(links: seq<Membership>, rows: seq<Row>, i: nat)
    requires i < |rows| && DistinctIds(rows)
    ensures forall r :: r in Kept(links, rows[..i]) ==> r.id != rows[i].id
    ensures forall r :: r in rows[i + 1..] ==> r.id != rows[i].id
    ensures forall r :: r in Extras(links, rows[..i], MaxId(rows) + 1) ==> r.id != rows[i].id
  {
    forall r | r in Kept(links, rows[..i]) ensures r.id != rows[i].id {
      KeptFrom(links, rows[..i], r);
    }
    ExtrasIds(links, rows[..i], MaxId(rows) + 1);
    assert rows[i] in rows;
  }

  // The row read back after the update is the only one with its id, and carries the same columns.
  lemma SourceRow(links: seq<Membership>, rows: seq<Row>, i: nat, org: int)
    requires i < |rows| && DistinctIds(rows)
    ensures var t := WithOrg(Partial(links, rows, i), rows[i].id, org);
            && (exists r :: r in t && r.id == rows[i].id)
            && (forall r, orgs, next :: r in t && r.id == rows[i].id ==> Copies(r, orgs, next) == Copies(rows[i], orgs, next))
  {
    hide DistinctIds, MaxId, Kept, Extras, WithOrg, Without;
    var row := rows[i];
    var a, b, c := Kept(links, rows[..i]), rows[i + 1..], Extras(links, rows[..i], MaxId(rows) + 1);
    IdNowhereElse(links, rows, i);
    RowAlone(a, row, b, c, org);
    assert rows[i..] == [row] + b;
    var t := WithOrg(Partial(links, rows, i), row.id, org);
    var changed := row.(org := Some(org));
    assert t == a + ([changed] + b) + c;
    assert t[|a|] == changed;
    forall r, orgs, next | r in t && r.id == row.id ensures Copies(r, orgs, next) == Copies(row, orgs, next) {
      assert r == changed;
      assert r.data == row.data;
    }
  }

  lemma PartialEnds(links: seq<Membership>, rows: seq<Row>)
    ensures Partial(links, rows, 0) == rows
    ensures Partial(links, rows, |rows|) == FanOut(links, rows)
    ensures forall next :: Extras(links, rows[..0], next) == []
  {
    assert rows[..|rows|] == rows && rows[|rows|..] == [];
    assert rows[..0] == [] && rows[0..] == rows;
  }

  lemma Heads(row: Row, b: seq<Row>, org: int)
    ensures Without([row] + b, row.id) == Without(b, row.id)
    ensures WithOrg([row] + b, row.id, org) == [row.(org := Some(org))] + WithOrg(b, row.id, org)
  {
    assert ([row] + b)[1..] == b;
    assert [] + Without(b, row.id) == Without(b, row.id);
  }

  lemma RowAlone(a: seq<Row>, row: Row, b: seq<Row>, c: seq<Row>, org: int)
    requires forall r :: r in a || r in b || r in c ==> r.id != row.id
    ensures Without(a + ([row] + b) + c, row.id) == a + b + c
    ensures WithOrg(a + ([row] + b) + c, row.id, org) == a + ([row.(org := Some(org))] + b) + c
  {
    hide Without, WithOrg;
    var m := [row] + b;
    Heads(row, b, org);
    UntouchedElsewhere(a, row.id, org);
    UntouchedElsewhere(b, row.id, org);
    UntouchedElsewhere(c, row.id, org);
    WithoutConcat(a + m, c, row.id);
    WithoutConcat(a, m, row.id);
    WithOrgConcat(a + m, c, row.id, org);
    WithOrgConcat(a, m, row.id, org);
  }

  // ----- ids -----------------------------------------------------------------

  lemma {:induction false} KeptDistinct(links: seq<Membership>, rows: seq<Row>)
    requires DistinctIds(rows)
    ensures DistinctIds(Kept(links, rows))
  {
    if rows != [] {
      var init := rows[..|rows| - 1];
      KeptDistinct(links, init);
      forall r | r in Kept(links, init) ensures r.id != rows[|rows| - 1].id {
        KeptFrom(links, init, r);
      }
    }
  }

  // Every id of the result is used once, so no insert can clash with the primary key.
  lemma {:induction false} FanOutKeepsIdsDistinct(links: seq<Membership>, rows: seq<Row>)
    requires DistinctIds(rows)
    ensures DistinctIds(FanOut(links, rows))
    ensures forall r :: r in FanOut(links, rows) && r.id <= MaxId(rows) ==> exists s :: s in rows && r == s.(org := r.org)
  {
    KeptDistinct(links, rows);
    ExtrasIds(links, rows, MaxId(rows) + 1);
    forall r | r in Kept(links, rows) ensures exists s :: s in rows && r == s.(org := r.org) {
      KeptFrom(links, rows, r);
    }
  }

  // ----- what happens to one row ---------------------------------------------

  predicate HasOrg(row: Row) {
    row.org.Some? && row.org.value >= 1
  }

  // The organization an unscoped row is moved to: the one its user joined first.
  ghost predicate MovesTo(links: seq<Membership>, row: Row, org: Option<int>) {
    if row.user.Some? && row.user.value >= 1 then FirstJoined(links, row.user.value, org) else org.None?
  }

  lemma {:induction false} OrgsOfFirst(links: seq<Membership>, user: int)
    ensures var r := OrgsOf(links, user); FirstJoined(links, user, if r == [] then None else Some(r[0]))
  {
    hide FirstJoined;
    if links == [] {
      FirstOfNone(user, None);
    } else {
      var rest := OrgsOf(links[1..], user);
      OrgsOfFirst(links[1..], user);
      FirstJoinedUnfold(links, user, Some(links[0].org));
      FirstJoinedUnfold(links, user, if rest == [] then None else Some(rest[0]));
    }
  }

  lemma SettledExact(links: seq<Membership>, row: Row)
    ensures HasOrg(row) ==> Settled(links, row) == [row]
    ensures !HasOrg(row) ==>
              exists org: Option<int> :: MovesTo(links, row, org) && Settled(links, row) == if org.None? then [] else [row.(org := org)]
  {
    hide OrgsOf, FirstJoined;
    var u := Pick(row.user);
    if u.Some? {
      OrgsOfFirst(links, u.value);
      var orgs := OrgsOf(links, u.value);
      assert MovesTo(links, row, if orgs == [] then None else Some(orgs[0]));
    } else {
      assert MovesTo(links, row, None);
    }
  }

  lemma {:induction false} KeptExact(links: seq<Membership>, rows: seq<Row>, r: Row)
    ensures r in Kept(links, rows) <==> exists s :: s in rows && r in Settled(links, s)
  {
    hide Settled;
    if rows != [] {
      var n := |rows| - 1;
      KeptExact(links, rows[..n], r);
      assert rows == rows[..n] + [rows[n]];
    }
  }

  // A row with an organization is kept as it is, one whose user has organizations is moved to the one
  // joined first, and the others are gone.
  lemma RowMoves(links: seq<Membership>, rows: seq<Row>, i: nat, r: Row)
    requires DistinctIds(rows) && i < |rows| && r.id == rows[i].id
    ensures r in FanOut(links, rows) <==>
              if HasOrg(rows[i]) then r == rows[i] else r.org.Some? && MovesTo(links, rows[i], r.org) && r == rows[i].(org := r.org)
  {
    hide Kept, Extras, Settled, MovesTo, DistinctIds, MaxId;
    KeptExact(links, rows, r);
    ExtrasIds(links, rows, MaxId(rows) + 1);
    assert rows[i].id <= MaxId(rows);
    assert r in FanOut(links, rows) <==> r in Kept(links, rows);
    forall s | s in rows && r in Settled(links, s) ensures s == rows[i] {
      SettledId(links, s, r);
      OneRowPerId(rows, s, rows[i]);
    }
    assert r in Kept(links, rows) <==> r in Settled(links, rows[i]);
    SettledExact(links, rows[i]);
    OneMove(links, rows[i]);
  }

  lemma SettledId(links: seq<Membership>, s: Row, r: Row)
    requires r in Settled(links, s)
    ensures r.id == s.id
  {
  }

  lemma OneRowPerId(rows: seq<Row>, a: Row, b: Row)
    requires DistinctIds(rows) && a in rows && b in rows && a.id == b.id
    ensures a == b
  {
  }

  lemma OneMove(links: seq<Membership>, row: Row)
    ensures forall a: Option<int>, b: Option<int> :: MovesTo(links, row, a) && MovesTo(links, row, b) ==> a == b
  {
    forall a: Option<int>, b: Option<int> | MovesTo(links, row, a) && MovesTo(links, row, b) ensures a == b {
      if row.user.Some? && row.user.value >= 1 {
        FirstJoinedUnique(links, row.user.value, a, b);
      }
    }
  }

  // The copies: one row with the same data, a new id and no user for each further organization.
  lemma RowIsCopied(links: seq<Membership>, rows: seq<Row>, i: nat, org: int)
    requires i < |rows| && !HasOrg(rows[i]) && rows[i].user.Some? && rows[i].user.value >= 1
    requires Membership(rows[i].user.value, org) in links && !MovesTo(links, rows[i], Some(org))
    ensures exists r :: r in FanOut(links, rows) && r.id > MaxId(rows) && r.user.None? && r.org == Some(org) && r.data == rows[i].data
  {
    hide Kept, Extras, MaxId, FirstJoined;
    var row := rows[i];
    var orgs := OrgsOf(links, row.user.value);
    OrgsOfFirst(links, row.user.value);
    var k :| 0 <= k < |orgs| && orgs[k] == org;
    assert k > 0;
    assert Further(links, row)[k - 1] == org;
    ExtrasHas(links, rows, MaxId(rows) + 1, i, k - 1);
    ExtrasIds(links, rows, MaxId(rows) + 1);
  }

  lemma {:induction false} ExtrasHas(links: seq<Membership>, rows: seq<Row>, next: int, i: nat, k: nat)
    requires i < |rows| && k < |Further(links, rows[i])|
    ensures exists m: nat ::
              m < |Extras(links, rows, next)| && Extras(links, rows, next)[m].user.None?
              && Extras(links, rows, next)[m].org == Some(Further(links, rows[i])[k]) && Extras(links, rows, next)[m].data == rows[i].data
    decreases |rows|
  {
    hide Further;
    var n := |rows| - 1;
    var before := Extras(links, rows[..n], next);
    if i < n {
      assert rows[..n][i] == rows[i];
      ExtrasHas(links, rows[..n], next, i, k);
      var m: nat :| m < |before| && before[m].user.None? && before[m].org == Some(Further(links, rows[i])[k]) && before[m].data == rows[i].data;
      assert Extras(links, rows, next)[m] == before[m];
    } else {
      assert Extras(links, rows, next)[|before| + k] == Copies(rows[n], Further(links, rows[n]), next + |before|)[k];
    }
  }

  // ----- one row per organization --------------------------------------------

  datatype Claim = Claim(org: Option<int>, data: seq<string>)

  function ClaimOf(row: Row): Claim {
    Claim(row.org, row.data)
  }

  function Contents(rows: seq<Row>): seq<Claim> {
    seq(|rows|, k requires 0 <= k < |rows| => ClaimOf(rows[k]))
  }

  function Shares(orgs: seq<int>, data: seq<string>): seq<Claim> {
    seq(|orgs|, k requires 0 <= k < |orgs| => Claim(Some(orgs[k]), data))
  }

  // What a source row stands for: itself when it already has an organization, otherwise one row
  // for each organization of its user.
  function Expand(links: seq<Membership>, row: Row): seq<Claim> {
    if Scoped(row) then [ClaimOf(row)] else Shares(Targets(links, row), row.data)
  }

  function ExpandAll(links: seq<Membership>, rows: seq<Row>): seq<Claim> {
    if rows == [] then []
    else ExpandAll(links, rows[..|rows| - 1]) + Expand(links, rows[|rows| - 1])
  }

  function Count<T(!new)>(s: seq<T>, test: T -> bool): nat {
    if s == [] then 0 else (if test(s[0]) then 1 else 0) + Count(s[1..], test)
  }

  lemma {:induction false} CountConcat<T(!new)>(a: seq<T>, b: seq<T>, test: T -> bool)
    ensures Count(a + b, test) == Count(a, test) + Count(b, test)
  {
    if a == [] {
      assert a + b == b;
    } else {
      assert (a + b)[1..] == a[1..] + b;
      CountConcat(a[1..], b, test);
    }
  }

  // How many rows pass a test on their organization and columns.
  ghost function Tally(rows: seq<Row>, test: Claim -> bool): nat {
    Count(Contents(rows), test)
  }

  ghost function RowTally(links: seq<Membership>, row: Row, test: Claim -> bool): nat {
    Count(Expand(links, row), test)
  }

  // How many the source rows stand for.
  ghost function ExpandTally(links: seq<Membership>, rows: seq<Row>, test: Claim -> bool): nat {
    if rows == [] then 0
    else ExpandTally(links, rows[..|rows| - 1], test) + RowTally(links, rows[|rows| - 1], test)
  }

  lemma TallyConcat(a: seq<Row>, b: seq<Row>, test: Claim -> bool)
    ensures Tally(a + b, test) == Tally(a, test) + Tally(b, test)
  {
    assert Contents(a + b) == Contents(a) + Contents(b);
    CountConcat(Contents(a), Contents(b), test);
  }

  lemma ExpandSnoc(links: seq<Membership>, rows: seq<Row>, row: Row, test: Claim -> bool)
    ensures ExpandTally(links, rows + [row], test) == ExpandTally(links, rows, test) + RowTally(links, row, test)
  {
    hide RowTally;
    assert (rows + [row])[..|rows + [row]| - 1] == rows;
  }

  lemma RowContents(links: seq<Membership>, row: Row, next: int, test: Claim -> bool)
    ensures Tally(Settled(links, row), test) + Tally(Copies(row, Further(links, row), next), test) == RowTally(links, row, test)
  {
    var orgs := Targets(links, row);
    assert Contents(Settled(links, row)) + Contents(Copies(row, Further(links, row), next)) == Expand(links, row) by {
      if !Scoped(row) && orgs != [] {
        assert orgs == [orgs[0]] + orgs[1..];
      }
    }
    CountConcat(Contents(Settled(links, row)), Contents(Copies(row, Further(links, row), next)), test);
  }

  lemma PartsSnoc(links: seq<Membership>, init: seq<Row>, last: Row, next: int, test: Claim -> bool)
    ensures var at := next + |Extras(links, init, next)|;
            && Tally(Kept(links, init + [last]), test) == Tally(Kept(links, init), test) + Tally(Settled(links, last), test)
            && Tally(Extras(links, init + [last], next), test) ==
               Tally(Extras(links, init, next), test) + Tally(Copies(last, Further(links, last), at), test)
  {
    hide Kept, Extras, Settled, Copies, Further, Tally;
    var before := Extras(links, init, next);
    KeptSnoc(links, init, last);
    ExtrasSnoc(links, init, last, next);
    TallyConcat(Kept(links, init), Settled(links, last), test);
    TallyConcat(before, Copies(last, Further(links, last), next + |before|), test);
  }

  lemma {:induction false} PartsContents(links: seq<Membership>, rows: seq<Row>, next: int, test: Claim -> bool)
    ensures Tally(Kept(links, rows), test) + Tally(Extras(links, rows, next), test) == ExpandTally(links, rows, test)
  {
    hide Kept, Extras, Settled, Copies, Further, Tally, RowTally;
    if rows == [] {
      NothingLeft(links, next, test);
    } else {
      var init, last := rows[..|rows| - 1], rows[|rows| - 1];
      PartsContents(links, init, next, test);
      assert rows == init + [last];
      PartsSnoc(links, init, last, next, test);
      RowContents(links, last, next + |Extras(links, init, next)|, test);
    }
  }

  lemma NothingLeft(links: seq<Membership>, next: int, test: Claim -> bool)
    ensures Tally(Kept(links, []), test) == 0 && Tally(Extras(links, [], next), test) == 0
  {
  }

  // Each unscoped row becomes exactly one row per organization of its user, with its columns; a
  // row without user or membership disappears; a scoped row stays.
  lemma FanOutContents(links: seq<Membership>, rows: seq<Row>, test: Claim -> bool)
    ensures Tally(FanOut(links, rows), test) == ExpandTally(links, rows, test)
  {
    hide Kept, Extras, ExpandTally, Tally, MaxId;
    PartsContents(links, rows, MaxId(rows) + 1, test);
    TallyConcat(Kept(links, rows), Extras(links, rows, MaxId(rows) + 1), test);
  }

  // ----- running again -------------------------------------------------------

  predicate RealOrgs(links: seq<Membership>) {
    forall m :: m in links ==> m.org >= 1
  }

  predicate AllScoped(rows: seq<Row>) {
    forall k :: 0 <= k < |rows| ==> Scoped(rows[k])
  }

  lemma RealTargets(links: seq<Membership>, row: Row)
    requires RealOrgs(links)
    ensures forall k :: 0 <= k < |Targets(links, row)| ==> Targets(links, row)[k] >= 1
  {
    forall k | 0 <= k < |Targets(links, row)| ensures Targets(links, row)[k] >= 1 {
      assert Targets(links, row)[k] in Targets(links, row);
      assert Membership(Pick(row.user).value, Targets(links, row)[k]) in links;
    }
  }

  lemma RowScoped(links: seq<Membership>, row: Row, next: int)
    requires RealOrgs(links)
    ensures AllScoped(Settled(links, row)) && AllScoped(Copies(row, Further(links, row), next))
  {
    RealTargets(links, row);
  }

  lemma ScopedSnoc(links: seq<Membership>, init: seq<Row>, last: Row, next: int)
    requires RealOrgs(links)
    requires AllScoped(Kept(links, init)) && AllScoped(Extras(links, init, next))
    ensures AllScoped(Kept(links, init + [last])) && AllScoped(Extras(links, init + [last], next))
  {
    hide Kept, Extras, Settled, Copies, Further, RealOrgs, Scoped;
    KeptSnoc(links, init, last);
    ExtrasSnoc(links, init, last, next);
    RowScoped(links, last, next + |Extras(links, init, next)|);
  }

  lemma {:induction false} ScopedParts(links: seq<Membership>, rows: seq<Row>, next: int)
    requires RealOrgs(links)
    ensures AllScoped(Kept(links, rows)) && AllScoped(Extras(links, rows, next))
  {
    if rows != [] {
      var init, last := rows[..|rows| - 1], rows[|rows| - 1];
      ScopedParts(links, init, next);
      hide Kept, Extras, RealOrgs, AllScoped;
      ScopedSnoc(links, init, last, next);
      assert rows == init + [last];
    }
  }

  lemma StaySnoc(links: seq<Membership>, init: seq<Row>, last: Row, next: int)
    requires Scoped(last) && Kept(links, init) == init && Extras(links, init, next) == []
    ensures Kept(links, init + [last]) == init + [last] && Extras(links, init + [last], next) == []
  {
    hide Kept, Extras, Scoped;
    KeptSnoc(links, init, last);
    ExtrasSnoc(links, init, last, next);
  }

  lemma {:induction false} ScopedStay(links: seq<Membership>, rows: seq<Row>, next: int)
    requires AllScoped(rows)
    ensures Kept(links, rows) == rows && Extras(links, rows, next) == []
  {
    if rows != [] {
      var init, last := rows[..|rows| - 1], rows[|rows| - 1];
      ScopedStay(links, init, next);
      hide Kept, Extras;
      StaySnoc(links, init, last, next);
      assert rows == init + [last];
    }
  }

  // What a table of scoped rows stands for is the table itself.
  lemma ScopedTally(links: seq<Membership>, rows: seq<Row>, test: Claim -> bool)
    requires AllScoped(rows)
    ensures ExpandTally(links, rows, test) == Tally(rows, test)
  {
    hide Kept, Extras, Tally, ExpandTally, MaxId;
    FanOutContents(links, rows, test);
    ScopedStay(links, rows, MaxId(rows) + 1);
    assert FanOut(links, rows) == rows;
  }

  // Another run, whatever the memberships are by then, changes nothing.
  lemma FanOutIdempotent(links: seq<Membership>, rows: seq<Row>, later: seq<Membership>)
    requires RealOrgs(links)
    ensures AllScoped(FanOut(links, rows))
    ensures FanOut(later, FanOut(links, rows)) == FanOut(links, rows)
  {
    hide Kept, Extras, MaxId, Scoped;
    ScopedParts(links, rows, MaxId(rows) + 1);
    var t := FanOut(links, rows);
    ScopedStay(later, t, MaxId(t) + 1);
  }

  // ----- stopping in the middle ----------------------------------------------

  lemma {:induction false} ExpandConcat(links: seq<Membership>, a: seq<Row>, b: seq<Row>, test: Claim -> bool)
    ensures ExpandTally(links, a + b, test) == ExpandTally(links, a, test) + ExpandTally(links, b, test)
  {
    hide RowTally;
    if b == [] {
      assert a + b == a;
    } else {
      var init, last := b[..|b| - 1], b[|b| - 1];
      assert a + b == (a + init) + [last] && b == init + [last];
      ExpandConcat(links, a, init, test);
      hide ExpandTally;
      ExpandSnoc(links, a + init, last, test);
      ExpandSnoc(links, init, last, test);
    }
  }

  // The copies of `row` still to be made after the first `done`.
  ghost function LostTally(links: seq<Membership>, row: Row, done: nat, test: Claim -> bool): nat
    requires done < |Targets(links, row)|
  {
    Count(Shares(Targets(links, row)[done + 1..], row.data), test)
  }

  predicate Stoppable(links: seq<Membership>, rows: seq<Row>, n: nat, done: nat) {
    n < |rows| && !Scoped(rows[n]) && done < |Targets(links, rows[n])|
  }

  // The row after its update, and its first copies.
  function Begun(links: seq<Membership>, row: Row, done: nat, next: int): (seq<Row>, seq<Row>)
    requires done < |Targets(links, row)|
  {
    var orgs := Targets(links, row);
    ([row.(org := Some(orgs[0]))], Copies(row, orgs[1..done + 1], next))
  }

  // The table when the process dies after `done` copies of row `n`.
  function Torn(links: seq<Membership>, rows: seq<Row>, n: nat, done: nat): seq<Row>
    requires Stoppable(links, rows, n, done)
  {
    var extras := Extras(links, rows[..n], MaxId(rows) + 1);
    var (first, copies) := Begun(links, rows[n], done, MaxId(rows) + 1 + |extras|);
    Kept(links, rows[..n]) + first + rows[n + 1..] + extras + copies
  }

  // A run that stops inside a row, followed by a full run, lacks exactly the copies that were
  // not yet made: the row now counts as scoped and nothing makes them up.
  lemma RestartLosesCopies(links: seq<Membership>, rows: seq<Row>, n: nat, done: nat, test: Claim -> bool)
    requires RealOrgs(links) && Stoppable(links, rows, n, done)
    ensures Tally(FanOut(links, Torn(links, rows, n, done)), test) + LostTally(links, rows[n], done, test) == Tally(FanOut(links, rows), test)
  {
    hide Kept, Extras, Tally, LostTally, RowTally, ExpandTally, Torn, FanOut, Scoped, RealOrgs, MaxId, Begun, AllScoped;
    var base := MaxId(rows) + 1;
    FanOutContents(links, rows, test);
    SourceStands(links, rows, n, test);
    PartsContents(links, rows[..n], base, test);
    TornStands(links, rows, n, done, test);
    BegunStands(links, rows[n], done, base + |Extras(links, rows[..n], base)|, test);
    FanOutContents(links, Torn(links, rows, n, done), test);
  }

  lemma SourceStands(links: seq<Membership>, rows: seq<Row>, n: nat, test: Claim -> bool)
    requires n < |rows|
    ensures ExpandTally(links, rows, test) ==
            ExpandTally(links, rows[..n], test) + RowTally(links, rows[n], test) + ExpandTally(links, rows[n + 1..], test)
  {
    hide ExpandTally, RowTally;
    var a, row, b := rows[..n], rows[n], rows[n + 1..];
    assert rows == (a + [row]) + b;
    ExpandConcat(links, a + [row], b, test);
    ExpandSnoc(links, a, row, test);
  }

  lemma TornStands(links: seq<Membership>, rows: seq<Row>, n: nat, done: nat, test: Claim -> bool)
    requires RealOrgs(links) && Stoppable(links, rows, n, done)
    ensures var base := MaxId(rows) + 1;
            var a, c := Kept(links, rows[..n]), Extras(links, rows[..n], base);
            var (first, copies) := Begun(links, rows[n], done, base + |c|);
            ExpandTally(links, Torn(links, rows, n, done), test) ==
            Tally(a, test) + Tally(first, test) + ExpandTally(links, rows[n + 1..], test) + Tally(c, test) + Tally(copies, test)
  {
    hide Kept, Extras, Tally, ExpandTally, RealOrgs, MaxId, Begun, AllScoped;
    var base := MaxId(rows) + 1;
    var a, c := Kept(links, rows[..n]), Extras(links, rows[..n], base);
    var (first, copies) := Begun(links, rows[n], done, base + |c|);
    ScopedParts(links, rows[..n], base);
    BegunStands(links, rows[n], done, base + |c|, test);
    FiveStand(links, a, first, rows[n + 1..], c, copies, test);
  }

  lemma FiveStand(links: seq<Membership>, a: seq<Row>, first: seq<Row>, b: seq<Row>, c: seq<Row>, copies: seq<Row>, test: Claim -> bool)
    requires AllScoped(a) && AllScoped(first) && AllScoped(c) && AllScoped(copies)
    ensures ExpandTally(links, a + first + b + c + copies, test) == Tally(a, test) + Tally(first, test) + ExpandTally(links, b, test) + Tally(c, test) + Tally(copies, test)
  {
    hide ExpandTally, Tally, AllScoped;
    ExpandConcat(links, a + first + b + c, copies, test);
    ExpandConcat(links, a + first + b, c, test);
    ExpandConcat(links, a + first, b, test);
    ExpandConcat(links, a, first, test);
    ScopedTally(links, a, test);
    ScopedTally(links, first, test);
    ScopedTally(links, c, test);
    ScopedTally(links, copies, test);
  }

  lemma BegunStands(links: seq<Membership>, row: Row, done: nat, next: int, test: Claim -> bool)
    requires RealOrgs(links) && !Scoped(row) && done < |Targets(links, row)|
    ensures var (first, copies) := Begun(links, row, done, next);
            && AllScoped(first) && AllScoped(copies)
            && Tally(first, test) + Tally(copies, test) + LostTally(links, row, done, test) == RowTally(links, row, test)
  {
    RealTargets(links, row);
    var orgs := Targets(links, row);
    hide Targets, RealOrgs;
    var (first, copies) := Begun(links, row, done, next);
    var lost := Shares(orgs[done + 1..], row.data);
    assert Contents(first) + Contents(copies) + lost == Expand(links, row);
    CountConcat(Contents(first) + Contents(copies), lost, test);
    CountConcat(Contents(first), Contents(copies), test);
  }

  // A process that dies between two rows loses nothing.
  lemma RestartBetweenRows(links: seq<Membership>, rows: seq<Row>, n: nat, test: Claim -> bool)
    requires RealOrgs(links) && n <= |rows|
    ensures Tally(FanOut(links, Partial(links, rows, n)), test) == Tally(FanOut(links, rows), test)
  {
    hide Kept, Extras, Tally, ExpandTally, FanOut, RealOrgs, MaxId, AllScoped;
    var base := MaxId(rows) + 1;
    var a, b, c := Kept(links, rows[..n]), rows[n..], Extras(links, rows[..n], base);
    assert Partial(links, rows, n) == a + b + c;
    ScopedParts(links, rows[..n], base);
    FanOutContents(links, rows, test);
    FanOutContents(links, a + b + c, test);
    ExpandConcat(links, a + b, c, test);
    ExpandConcat(links, a, b, test);
    ScopedTally(links, a, test);
    ScopedTally(links, c, test);
    PartsContents(links, rows[..n], base, test);
    assert rows == rows[..n] + b;
    ExpandConcat(links, rows[..n], b, test);
  }

  // ----- one row per organization, for settings ------------------------------

  predicate UniqueOrgs(rows: seq<Row>) {
    forall i, j :: 0 <= i < j < |rows| ==> rows[i].org != rows[j].org
  }

  predicate NoRepeats(orgs: seq<int>) {
    forall i, j :: 0 <= i < j < |orgs| ==> orgs[i] != orgs[j]
  }

  predicate UniqueLinks(links: seq<Membership>) {
    forall i, j :: 0 <= i < j < |links| ==> links[i] != links[j]
  }

  // Source row `row` stands for organization `o`.
  predicate Claims(links: seq<Membership>, row: Row, o: int) {
    if Scoped(row) then row.org == Some(o) else o in Targets(links, row)
  }

  ghost predicate Rivals(links: seq<Membership>, rows: seq<Row>) {
    exists i, j, o :: 0 <= i < j < |rows| && Claims(links, rows[i], o) && Claims(links, rows[j], o)
  }

  function OnOrg(o: int): Claim -> bool {
    (c: Claim) => c.org == Some(o)
  }

  lemma {:induction false} AtMostOne<T(!new)>(s: seq<T>, test: T -> bool)
    ensures Count(s, test) >= 1 <==> exists i :: 0 <= i < |s| && test(s[i])
    ensures Count(s, test) <= 1 <==> forall i, j :: 0 <= i < j < |s| ==> !(test(s[i]) && test(s[j]))
  {
    if s != [] {
      var rest := s[1..];
      AtMostOne(rest, test);
      assert forall i :: 0 <= i < |rest| ==> rest[i] == s[i + 1];
      if Count(s, test) >= 1 && !test(s[0]) {
        var i :| 0 <= i < |rest| && test(rest[i]);
        assert test(s[i + 1]);
      }
      if Count(s, test) <= 1 {
        forall i, j | 0 <= i < j < |s| ensures !(test(s[i]) && test(s[j])) {
          assert s[j] == rest[j - 1];
          if i > 0 {
            assert s[i] == rest[i - 1];
          }
        }
      }
    }
  }

  lemma {:induction false} OrgsOfDistinct(links: seq<Membership>, user: int)
    requires UniqueLinks(links)
    ensures NoRepeats(OrgsOf(links, user))
  {
    if links != [] {
      OrgsOfDistinct(links[1..], user);
      var r, rest := OrgsOf(links, user), OrgsOf(links[1..], user);
      if links[0].user == user {
        assert r == [links[0].org] + rest;
        forall i, j | 0 <= i < j < |r| ensures r[i] != r[j] {
          assert r[j] == rest[j - 1] && r[j] in rest;
          if i > 0 {
            assert r[i] == rest[i - 1];
          }
        }
      }
    }
  }

  lemma RowClaims(links: seq<Membership>, row: Row, o: int)
    requires UniqueLinks(links)
    ensures RowTally(links, row, OnOrg(o)) == if Claims(links, row, o) then 1 else 0
  {
    var e := Expand(links, row);
    var test := OnOrg(o);
    AtMostOne(e, test);
    var orgs := Targets(links, row);
    if !Scoped(row) {
      assert NoRepeats(orgs) by {
        if Pick(row.user).Some? {
          OrgsOfDistinct(links, Pick(row.user).value);
        }
      }
      assert forall i :: 0 <= i < |e| ==> (test(e[i]) <==> orgs[i] == o);
      assert Count(e, test) <= 1;
      if o in orgs {
        var i :| 0 <= i < |orgs| && orgs[i] == o;
        assert test(e[i]);
      }
    } else {
      assert test(e[0]) <==> Claims(links, row, o);
    }
  }

  lemma {:induction false} ClaimsTally(links: seq<Membership>, rows: seq<Row>, o: int)
    requires UniqueLinks(links)
    ensures ExpandTally(links, rows, OnOrg(o)) >= 1 <==> exists i :: 0 <= i < |rows| && Claims(links, rows[i], o)
    ensures ExpandTally(links, rows, OnOrg(o)) <= 1 <==>
            forall i, j :: 0 <= i < j < |rows| ==> !(Claims(links, rows[i], o) && Claims(links, rows[j], o))
  {
    hide RowTally, Claims;
    if rows != [] {
      var n := |rows| - 1;
      var init := rows[..n];
      ClaimsTally(links, init, o);
      RowClaims(links, rows[n], o);
      assert forall i :: 0 <= i < n ==> init[i] == rows[i];
      if i :| 0 <= i < |init| && Claims(links, init[i], o) {
        assert Claims(links, rows[i], o);
      }
    }
  }

  lemma UniqueByTally(rows: seq<Row>)
    requires AllScoped(rows)
    ensures UniqueOrgs(rows) <==> forall o :: Tally(rows, OnOrg(o)) <= 1
  {
    var c := Contents(rows);
    forall o ensures Tally(rows, OnOrg(o)) <= 1 <==> forall i, j :: 0 <= i < j < |rows| ==> !(rows[i].org == Some(o) && rows[j].org == Some(o)) {
      AtMostOne(c, OnOrg(o));
      assert forall i :: 0 <= i < |rows| ==> (OnOrg(o)(c[i]) <==> rows[i].org == Some(o));
    }
    if !UniqueOrgs(rows) {
      var i, j :| 0 <= i < j < |rows| && rows[i].org == rows[j].org;
      assert Scoped(rows[i]);
      assert Tally(rows, OnOrg(rows[i].org.value)) > 1;
    }
  }

  // The unique index created after the loop on the settings table holds exactly when no two source
  // rows stand for the same organization, as two colleagues' rows do.
  lemma UniqueIndexExact(links: seq<Membership>, rows: seq<Row>)
    requires RealOrgs(links) && UniqueLinks(links)
    ensures UniqueOrgs(FanOut(links, rows)) <==> !Rivals(links, rows)
  {
    hide Kept, Extras, Tally, ExpandTally, AllScoped, UniqueOrgs, Claims, RealOrgs, UniqueLinks, FanOut, OnOrg;
    FanOutIdempotent(links, rows, links);
    UniqueByTally(FanOut(links, rows));
    forall o ensures Tally(FanOut(links, rows), OnOrg(o)) <= 1 <==>
                     forall i, j :: 0 <= i < j < |rows| ==> !(Claims(links, rows[i], o) && Claims(links, rows[j], o)) {
      FanOutContents(links, rows, OnOrg(o));
      ClaimsTally(links, rows, o);
    }
    if Rivals(links, rows) {
      var i, j, o :| 0 <= i < j < |rows| && Claims(links, rows[i], o) && Claims(links, rows[j], o);
      assert Tally(FanOut(links, rows), OnOrg(o)) > 1;
    }
  }

  // ----- two concrete tables -------------------------------------------------

  // A user of two organizations: the process dies after the update, and the second organization never
  // gets its copy.
  lemma RestartExample(data: seq<string>)
    ensures var links, row := [Membership(1, 5), Membership(1, 6)], Row(1, Some(1), None, data);
            var torn := [Row(1, Some(1), Some(5), data)];
            && Stoppable(links, [row], 0, 0) && Torn(links, [row], 0, 0) == torn
            && FanOut(links, torn) == torn
            && FanOut(links, [row]) == torn + [Row(2, None, Some(6), data)]
  {
    var links, row := [Membership(1, 5), Membership(1, 6)], Row(1, Some(1), None, data);
    var settled := Row(1, Some(1), Some(5), data);
    TwoOrgs(links, row);
    hide Targets, Kept, Extras, MaxId, FanOut, Torn;
    FannedOut(links, row, settled, Row(2, None, Some(6), data));
    SettledStays(links, settled);
  }

  lemma SettledStays(links: seq<Membership>, settled: Row)
    requires Scoped(settled)
    ensures FanOut(links, [settled]) == [settled]
  {
    hide Kept, Extras, MaxId, Scoped;
    ScopedStay(links, [settled], MaxId([settled]) + 1);
  }

  lemma FannedOut(links: seq<Membership>, row: Row, settled: Row, copy: Row)
    requires Targets(links, row) == [5, 6] && row.id == 1 && !Scoped(row)
    requires settled == row.(org := Some(5)) && copy == Row(2, None, Some(6), row.data)
    ensures FanOut(links, [row]) == [settled, copy] && Torn(links, [row], 0, 0) == [settled]
  {
    hide Targets, Kept, Extras, MaxId;
    OneRow(links, row, 1);
    assert [5, 6][1..] == [6] && [5, 6][1..1] == [];
    assert Copies(row, [6], 2) == [copy] && Copies(row, [], 2) == [];
    assert Settled(links, row) == [settled] && Further(links, row) == [6];
    assert [row][..0] == [] && [row][1..] == [];
  }

  lemma TwoOrgs(links: seq<Membership>, row: Row)
    requires links == [Membership(1, 5), Membership(1, 6)] && row.user == Some(1)
    ensures Targets(links, row) == [5, 6]
  {
    assert links[1..] == [Membership(1, 6)] && links[1..][1..] == [];
    assert OrgsOf([Membership(1, 6)], 1) == [6] + OrgsOf([], 1) == [6];
  }

  lemma OneRow(links: seq<Membership>, row: Row, id: int)
    requires row.id == id == 1
    ensures MaxId([row]) == 1 && Kept(links, [row]) == Settled(links, row) && Extras(links, [row], 2) == Copies(row, Further(links, row), 2)
    ensures Kept(links, []) == [] && Extras(links, [], 2) == []
  {
    hide Settled, Further, Copies;
    assert [row][..0] == [];
    assert MaxId([]) == 0;
  }

  // Two colleagues with settings of their own: both rows end on the one organization they share, and
  // the unique index cannot be created.
  lemma UniqueIndexExample(a: seq<string>, b: seq<string>)
    ensures var links := [Membership(1, 5), Membership(2, 5)];
            var rows := [Row(1, Some(1), None, a), Row(2, Some(2), None, b)];
            DistinctIds(rows) && !UniqueOrgs(FanOut(links, rows))
  {
    var links := [Membership(1, 5), Membership(2, 5)];
    var rows := [Row(1, Some(1), None, a), Row(2, Some(2), None, b)];
    assert Membership(1, 5) in links && Membership(2, 5) in links;
    assert Claims(links, rows[0], 5) && Claims(links, rows[1], 5);
    assert Rivals(links, rows);
    hide Rivals, FanOut, UniqueOrgs;
    UniqueIndexExact(links, rows);
  }
}

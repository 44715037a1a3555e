// s3ListBucket: one pass over a sorted query with version dedup, resume, grouping and a
// page limit; and what the pages of one listing add up to.
module Listing {

  datatype Row = Row(key: string, rover: int, size: nat)

  // Validated request parameters: a literal prefix, a delimiter of at most one letter; and
  // the ones that say where to start.
  datatype Params = Params(prefix: string, delim: string, maxKeys: nat)

  datatype Request = Request(p: Params, startAfter: string, token: string)

  predicate ValidParams(p: Params) { |p.delim| <= 1 && p.maxKeys >= 1 }

  datatype Page = Page(contents: seq<Row>, prefixes: set<string>, truncated: bool, next: string)

  // --- key order ---

  // Byte order of strings.
  predicate Lt(a: string, b: string) {
    b != "" && (a == "" || a[0] < b[0] || (a[0] == b[0] && Lt(a[1..], b[1..])))
  }

  // At the first letter in which they differ a has the smaller one, or a ends there.
  ghost predicate DiffersAt(a: string, b: string, i: nat) {
    && i <= |a| && i < |b| && a[..i] == b[..i]
    && (i < |a| ==> a[i] < b[i])
  }

  lemma {:induction false} LtMeans(a: string, b: string)
    ensures Lt(a, b) <==> exists i: nat :: DiffersAt(a, b, i)
  {
    if b != "" && a != "" && a[0] == b[0] {
      LtMeans(a[1..], b[1..]);
      if i: nat :| DiffersAt(a[1..], b[1..], i) {
        assert a[..i + 1] == [a[0]] + a[1..][..i] && b[..i + 1] == [b[0]] + b[1..][..i];
        assert DiffersAt(a, b, i + 1);
      }
      if i: nat :| DiffersAt(a, b, i) {
        assert i > 0;
        assert a[1..][..i - 1] == a[..i][1..] && b[1..][..i - 1] == b[..i][1..];
        assert DiffersAt(a[1..], b[1..], i - 1);
      }
    } else if Lt(a, b) {
      assert DiffersAt(a, b, 0);
    } else {
      forall i: nat ensures !DiffersAt(a, b, i) {
        if 0 < i <= |a| && i < |b| { assert a[..i][0] == a[0] && b[..i][0] == b[0]; }
      }
    }
  }

  predicate Before(r: Row, s: Row) { Lt(r.key, s.key) || (r.key == s.key && r.rover > s.rover) }

  // The order and the filter of the query.
  ghost predicate Sorted(rows: seq<Row>, prefix: string) {
    && (forall i, j :: 0 <= i < j < |rows| ==> Before(rows[i], rows[j]))
    && (forall i :: 0 <= i < |rows| ==> prefix <= rows[i].key)
  }

  lemma {:induction false} LtIrreflexive(a: string)
    ensures !Lt(a, a)
  {
    if a != "" { LtIrreflexive(a[1..]); }
  }

  lemma {:induction false} LtTransitive(a: string, b: string, c: string)
    requires Lt(a, b) && Lt(b, c)
    ensures Lt(a, c)
  {
    if a != "" && a[0] == b[0] == c[0] { LtTransitive(a[1..], b[1..], c[1..]); }
  }

  // Keys that share a prefix are contiguous in key order.
  lemma {:induction false} PrefixBetween(g: string, a: string, k: string, b: string)
    requires g <= a && g <= b && Lt(a, k) && Lt(k, b)
    ensures g <= k
  {
    if g != "" {
      assert g[0] == a[0] == b[0];
      assert a[0] == k[0];
      assert g[1..] <= a[1..] && g[1..] <= b[1..];
      PrefixBetween(g[1..], a[1..], k[1..], b[1..]);
      assert k == [k[0]] + k[1..] && g == [g[0]] + g[1..];
    }
  }

  // --- grouping ---

  // strings.Index for a one-letter needle.
  function Index(s: string, c: char): (i: int)
    ensures -1 <= i < |s|
    ensures i >= 0 ==> s[i] == c && c !in s[..i]
    ensures i == -1 ==> c !in s
  {
    if s == "" then -1
    else if s[0] == c then 0
    else
      var j := Index(s[1..], c);
      assert s == [s[0]] + s[1..];
      if j < 0 then -1
      else
        assert s[..j + 1] == [s[0]] + s[1..][..j];
        j + 1
  }

  lemma IndexUnique(s: string, c: char, i: nat)
    requires i < |s| && s[i] == c && c !in s[..i]
    ensures Index(s, c) == i
  {
    var j := Index(s, c);
    assert forall m :: 0 <= m < i ==> s[..i][m] == s[m];
    assert j >= 0 ==> forall m :: 0 <= m < j ==> s[..j][m] == s[m];
  }

  datatype Class = Plain | Dropped | Grouped(group: string)

  // With a delimiter, a key is listed by itself only if the delimiter does not occur after
  // the prefix; it is dropped if the delimiter comes right after the prefix.
  function Classify(p: Params, key: string): Class
    requires ValidParams(p) && p.prefix <= key
  {
    if p.delim == "" then Plain
    else
      var pos := Index(key[|p.prefix|..], p.delim[0]);
      if pos < 0 then Plain
      else if pos == 0 then Dropped
      else Grouped(key[..|p.prefix| + pos + 1])
  }

  // A key's group depends only on the group being its prefix.
  lemma GroupSpreads(p: Params, a: string, k: string)
    requires ValidParams(p) && p.prefix <= a && Classify(p, a).Grouped?
    requires p.prefix <= k && Classify(p, a).group <= k
    ensures Classify(p, k) == Classify(p, a)
  {
    var n := |p.prefix|;
    var pos := Index(a[n..], p.delim[0]);
    var g := a[..n + pos + 1];
    assert g == k[..n + pos + 1];
    assert k[n..][pos] == g[n + pos] == a[n..][pos];
    assert k[n..][..pos] == g[n..n + pos] == a[n..][..pos];
    IndexUnique(k[n..], p.delim[0], pos);
  }

  // --- the specification of one page ---

  // One row a key, the first of each.
  function Dedup(rows: seq<Row>, pkey: string): seq<Row> {
    if rows == [] then []
    else if rows[0].key == pkey then Dedup(rows[1..], pkey)
    else [rows[0]] + Dedup(rows[1..], rows[0].key)
  }

  // What follows the row with this key; nothing if there is none.
  function After(rows: seq<Row>, key: string): (r: seq<Row>)
    ensures |r| <= |rows|
  {
    if rows == [] then [] else if rows[0].key == key then rows[1..] else After(rows[1..], key)
  }

  ghost predicate Keyed(rows: seq<Row>, prefix: string) {
    forall i :: 0 <= i < |rows| ==> prefix <= rows[i].key
  }

  // How many rows a page with room for n keys consumes, and whether it fills up.
  function Cut(p: Params, rows: seq<Row>, n: nat): (c: (nat, bool))
    requires ValidParams(p) && Keyed(rows, p.prefix) && n > 0
    ensures c.0 <= |rows|
    ensures c.1 ==> c.0 > 0 && Classify(p, rows[c.0 - 1].key) == Plain
    ensures !c.1 ==> c.0 == |rows|
  {
    if rows == [] then (0, false)
    else if Classify(p, rows[0].key) == Plain then
      if n == 1 then (1, true) else var c := Cut(p, rows[1..], n - 1); (c.0 + 1, c.1)
    else var c := Cut(p, rows[1..], n); (c.0 + 1, c.1)
  }

  function Plains(p: Params, rows: seq<Row>): seq<Row>
    requires ValidParams(p) && Keyed(rows, p.prefix)
  {
    if rows == [] then []
    else (if Classify(p, rows[0].key) == Plain then [rows[0]] else []) + Plains(p, rows[1..])
  }

  function Groups(p: Params, rows: seq<Row>): set<string>
    requires ValidParams(p) && Keyed(rows, p.prefix)
  {
    set i | 0 <= i < |rows| && Classify(p, rows[i].key).Grouped? :: Classify(p, rows[i].key).group
  }

  function PageOf(p: Params, rows: seq<Row>, n: nat): Page
    requires ValidParams(p) && Keyed(rows, p.prefix) && n > 0
  {
    var c := Cut(p, rows, n);
    Page(Plains(p, rows[..c.0]), Groups(p, rows[..c.0]), c.1, if c.1 then rows[c.0 - 1].key else "")
  }

  // Where the request starts: the token wins over StartAfter.
  function Start(rq: Request, rows: seq<Row>): seq<Row> {
    if rq.token != "" then After(rows, rq.token)
    else if rq.startAfter != "" then After(rows, rq.startAfter)
    else rows
  }

  // --- the loop ---

  lemma DedupKeyed(rows: seq<Row>, pkey: string, prefix: string)
    requires Keyed(rows, prefix)
    ensures Keyed(Dedup(rows, pkey), prefix)
  {
  }

  lemma AfterKeyed(rows: seq<Row>, key: string, prefix: string)
    requires Keyed(rows, prefix)
    ensures Keyed(After(rows, key), prefix)
  {
  }

  // What is still to be listed, seen from the middle of the loop: skip is the key waited for.
  function Pending(rows: seq<Row>, pkey: string, skip: string): seq<Row> {
    if skip != "" then After(Dedup(rows, pkey), skip) else Dedup(rows, pkey)
  }

  lemma PendingKeyed(rows: seq<Row>, pkey: string, skip: string, prefix: string)
    requires Keyed(rows, prefix)
    ensures Keyed(Pending(rows, pkey, skip), prefix)
  {
    DedupKeyed(rows, pkey, prefix);
    AfterKeyed(Dedup(rows, pkey), skip, prefix);
  }

  lemma PlainsCons(p: Params, r: Row, rows: seq<Row>)
    requires ValidParams(p) && p.prefix <= r.key && Keyed([r] + rows, p.prefix) && Keyed(rows, p.prefix)
    ensures Plains(p, [r] + rows) == (if Classify(p, r.key) == Plain then [r] else []) + Plains(p, rows)
    ensures Groups(p, [r] + rows)
            == (if Classify(p, r.key).Grouped? then {Classify(p, r.key).group} else {}) + Groups(p, rows)
  {
    var all := [r] + rows;
    assert all[1..] == rows;
    forall g | g in Groups(p, rows) ensures g in Groups(p, all) {
      var i :| 0 <= i < |rows| && Classify(p, rows[i].key).Grouped? && Classify(p, rows[i].key).group == g;
      assert all[i + 1] == rows[i];
    }
    if Classify(p, r.key).Grouped? { assert all[0] == r; }
    forall g | g in Groups(p, all)
        ensures (Classify(p, r.key).Grouped? && g == Classify(p, r.key).group) || g in Groups(p, rows) {
      var i :| 0 <= i < |all| && Classify(p, all[i].key).Grouped? && Classify(p, all[i].key).group == g;
      if i > 0 { assert all[i] == rows[i - 1]; }
    }
  }

  // One row more: what the page of [r] + rows is, from the page of rows.
  lemma PageCons(p: Params, r: Row, rows: seq<Row>, n: nat)
    requires ValidParams(p) && p.prefix <= r.key && Keyed([r] + rows, p.prefix) && Keyed(rows, p.prefix) && n > 0
    ensures var all, c := PageOf(p, [r] + rows, n), Classify(p, r.key);
            if c == Plain && n == 1 then all == Page([r], {}, true, r.key)
            else
              var rest := PageOf(p, rows, if c == Plain then n - 1 else n);
              all == Page((if c == Plain then [r] else []) + rest.contents,
                  (if c.Grouped? then {c.group} else {}) + rest.prefixes,
                          rest.truncated, rest.next)
  {
    var all := [r] + rows;
    assert all[1..] == rows;
    var c := Cut(p, all, n);
    if Classify(p, r.key) == Plain && n == 1 {
      assert all[..1] == [r] + [];
      assert Keyed([r] + [], p.prefix);
      PlainsCons(p, r, []);
    } else {
      var m := c.0 - 1;
      assert all[..c.0] == [r] + rows[..m];
      assert Keyed([r] + rows[..m], p.prefix);
      PlainsCons(p, r, rows[..m]);
    }
  }

  lemma PendingStep(rows: seq<Row>, row: Row, rest: seq<Row>, pkey: string, skip: string)
    requires rows == [row] + rest
    ensures row.key == pkey ==> Pending(rows, pkey, skip) == Pending(rest, pkey, skip)
    ensures row.key != pkey && skip != "" ==>
              Pending(rows, pkey, skip) == Pending(rest, row.key, if row.key == skip then "" else skip)
    ensures row.key != pkey && skip == "" ==> Pending(rows, pkey, skip) == [row] + Pending(rest, row.key, "")
  {
    assert rows[1..] == rest;
    AfterCons(row, Dedup(rest, row.key), skip);
  }

  // The page of what is left, with what was collected in front of it.
  ghost function Prepend(contents: seq<Row>, prefixes: set<string>, rest: Page): Page {
    Page(contents + rest.contents, prefixes + rest.prefixes, rest.truncated, rest.next)
  }

  // full is what was collected so far, followed by the page of what is left.
  ghost predicate Owes(p: Params, full: Page, contents: seq<Row>, prefixes: set<string>, left: seq<Row>) {
    && ValidParams(p) && Keyed(left, p.prefix) && |contents| < p.maxKeys
    && full == Prepend(contents, prefixes, PageOf(p, left, p.maxKeys - |contents|))
  }

  lemma NothingCollected(p: Params, left: seq<Row>)
    requires ValidParams(p) && Keyed(left, p.prefix)
    ensures Owes(p, PageOf(p, left, p.maxKeys), [], {}, left)
  {
    var page := PageOf(p, left, p.maxKeys);
    assert [] + page.contents == page.contents && {} + page.prefixes == page.prefixes;
  }

  lemma PrependAssoc(contents: seq<Row>, prefixes: set<string>, more: seq<Row>, gs: set<string>, rest: Page)
    ensures Prepend(contents, prefixes, Prepend(more, gs, rest)) == Prepend(contents + more, prefixes + gs, rest)
  {
    assert contents + (more + rest.contents) == contents + more + rest.contents;
    assert prefixes + (gs + rest.prefixes) == prefixes + gs + rest.prefixes;
  }

  // Passing one row of the listing: it is listed, or it names a group, or it is dropped.
  lemma Passed(p: Params, full: Page, contents: seq<Row>, prefixes: set<string>, row: Row, left: seq<Row>)
    requires Owes(p, full, contents, prefixes, [row] + left) && p.prefix <= row.key && Keyed(left, p.prefix)
    requires !(Classify(p, row.key) == Plain && |contents| + 1 == p.maxKeys)
    ensures Classify(p, row.key) == Plain ==> Owes(p, full, contents + [row], prefixes, left)
    ensures Classify(p, row.key) == Dropped ==> Owes(p, full, contents, prefixes, left)
    ensures Classify(p, row.key).Grouped? ==> Owes(p, full, contents, prefixes + {Classify(p, row.key).group}, left)
  {
    var c := Classify(p, row.key);
    PageCons(p, row, left, p.maxKeys - |contents|);
    PrependAssoc(contents, prefixes, if c == Plain then [row] else [], if c.Grouped? then {c.group} else {},
                 PageOf(p, left, if c == Plain then p.maxKeys - |contents| - 1 else p.maxKeys - |contents|));
    assert contents + [] == contents && prefixes + {} == prefixes;
  }

  lemma Ended(p: Params, full: Page, contents: seq<Row>, prefixes: set<string>)
    requires Owes(p, full, contents, prefixes, [])
    ensures full == Page(contents, prefixes, false, "")
  {
    assert contents + [] == contents && prefixes + {} == prefixes;
  }

  lemma FilledUp(p: Params, full: Page, contents: seq<Row>, prefixes: set<string>, row: Row, left: seq<Row>)
    requires Owes(p, full, contents, prefixes, [row] + left) && p.prefix <= row.key && Keyed(left, p.prefix)
    requires Classify(p, row.key) == Plain && |contents| + 1 == p.maxKeys
    ensures full == Page(contents + [row], prefixes, true, row.key)
  {
    PageCons(p, row, left, 1);
  }

  // The loop has come to row i: full is what was collected, followed by the page of what is left.
  ghost predicate AtRow(p: Params, full: Page, contents: seq<Row>, prefixes: set<string>,
                        rows: seq<Row>, i: nat, pkey: string, skip: string) {
    i <= |rows| && Keyed(rows, p.prefix) && Owes(p, full, contents, prefixes, Pending(rows[i..], pkey, skip))
  }

  // An older version of the row before, or a row of an earlier page.
  lemma RowSkipped(p: Params, full: Page, contents: seq<Row>, prefixes: set<string>,
                   rows: seq<Row>, i: nat, pkey: string, skip: string)
    requires i < |rows| && AtRow(p, full, contents, prefixes, rows, i, pkey, skip)
    ensures rows[i].key == pkey ==> AtRow(p, full, contents, prefixes, rows, i + 1, pkey, skip)
    ensures rows[i].key != pkey && skip != "" ==>
              AtRow(p, full, contents, prefixes, rows, i + 1, rows[i].key, if rows[i].key == skip then "" else skip)
  {
    assert rows[i..] == [rows[i]] + rows[i + 1..];
    PendingStep(rows[i..], rows[i], rows[i + 1..], pkey, skip);
  }

  // The current version of a key that belongs on this page or a later one.
  lemma RowTaken(p: Params, full: Page, contents: seq<Row>, prefixes: set<string>,
                 rows: seq<Row>, i: nat, pkey: string)
    requires i < |rows| && rows[i].key != pkey && AtRow(p, full, contents, prefixes, rows, i, pkey, "")
    ensures ValidParams(p) && p.prefix <= rows[i].key
    ensures match Classify(p, rows[i].key)
            case Plain =>
              if |contents| + 1 >= p.maxKeys then full == Page(contents + [rows[i]], prefixes, true, rows[i].key)
              else AtRow(p, full, contents + [rows[i]], prefixes, rows, i + 1, rows[i].key, "")
            case Dropped => AtRow(p, full, contents, prefixes, rows, i + 1, rows[i].key, "")
            case Grouped(g) => AtRow(p, full, contents, prefixes + {g}, rows, i + 1, rows[i].key, "")
  {
    var row, left := rows[i], Pending(rows[i + 1..], rows[i].key, "");
    assert rows[i..] == [row] + rows[i + 1..];
    PendingStep(rows[i..], row, rows[i + 1..], pkey, "");
    PendingKeyed(rows[i + 1..], row.key, "", p.prefix);
    if Classify(p, row.key) == Plain && |contents| + 1 == p.maxKeys {
      FilledUp(p, full, contents, prefixes, row, left);
    } else {
      Passed(p, full, contents, prefixes, row, left);
    }
  }

  // What the loop makes of the rows from i on.
  ghost function Scan(p: Params, contents: seq<Row>, prefixes: set<string>,
                      rows: seq<Row>, i: nat, pkey: string, skip: string): Page
    requires ValidParams(p) && Keyed(rows, p.prefix) && i <= |rows|
    decreases |rows| - i
  {
    if i == |rows| then Page(contents, prefixes, false, "")
    else
      var row := rows[i];
      if row.key == pkey then Scan(p, contents, prefixes, rows, i + 1, pkey, skip)
      else if skip != "" then
        Scan(p, contents, prefixes, rows, i + 1, row.key, if row.key == skip then "" else skip)
      else
        match Classify(p, row.key)
        case Dropped => Scan(p, contents, prefixes, rows, i + 1, row.key, "")
        case Grouped(g) => Scan(p, contents, prefixes + {g}, rows, i + 1, row.key, "")
        case Plain =>
          if |contents| + 1 >= p.maxKeys then Page(contents + [row], prefixes, true, row.key)
          else Scan(p, contents + [row], prefixes, rows, i + 1, row.key, "")
  }

  lemma {:induction false} ScanIsPage(p: Params, full: Page, contents: seq<Row>, prefixes: set<string>,
                                      rows: seq<Row>, i: nat, pkey: string, skip: string)
    requires AtRow(p, full, contents, prefixes, rows, i, pkey, skip)
    ensures Scan(p, contents, prefixes, rows, i, pkey, skip) == full
    decreases |rows| - i
  {
    if i == |rows| {
      Ended(p, full, contents, prefixes);
    } else if rows[i].key == pkey {
      RowSkipped(p, full, contents, prefixes, rows, i, pkey, skip);
      ScanIsPage(p, full, contents, prefixes, rows, i + 1, pkey, skip);
    } else if skip != "" {
      var key := rows[i].key;
      RowSkipped(p, full, contents, prefixes, rows, i, pkey, skip);
      ScanIsPage(p, full, contents, prefixes, rows, i + 1, key, if key == skip then "" else skip);
    } else {
      var row := rows[i];
      RowTaken(p, full, contents, prefixes, rows, i, pkey);
      match Classify(p, row.key)
      case Dropped => ScanIsPage(p, full, contents, prefixes, rows, i + 1, row.key, "");
      case Grouped(g) => ScanIsPage(p, full, contents, prefixes + {g}, rows, i + 1, row.key, "");
      case Plain =>
        if |contents| + 1 < p.maxKeys {
          ScanIsPage(p, full, contents + [row], prefixes, rows, i + 1, row.key, "");
        }
    }
  }

  lemma ScanFromStart(rq: Request, rows: seq<Row>)
    requires ValidParams(rq.p) && Keyed(rows, rq.p.prefix)
    ensures Keyed(Start(rq, Dedup(rows, "")), rq.p.prefix)
    ensures Scan(rq.p, [], {}, rows, 0, "", if rq.token != "" then rq.token else rq.startAfter)
            == PageOf(rq.p, Start(rq, Dedup(rows, "")), rq.p.maxKeys)
  {
    var p, skip := rq.p, if rq.token != "" then rq.token else rq.startAfter;
    PendingKeyed(rows, "", skip, p.prefix);
    assert rows[0..] == rows;
    NothingCollected(p, Pending(rows, "", skip));
    ScanIsPage(p, PageOf(p, Pending(rows, "", skip), p.maxKeys), [], {}, rows, 0, "", skip);
  }

  method ListBucket(rows: seq<Row>, rq: Request) returns (page: Page)
    requires ValidParams(rq.p) && Keyed(rows, rq.p.prefix)
    ensures Keyed(Start(rq, Dedup(rows, "")), rq.p.prefix)
    ensures page == PageOf(rq.p, Start(rq, Dedup(rows, "")), rq.p.maxKeys)
  {
    ScanFromStart(rq, rows);
    var p := rq.p;
    var startAfter := rq.startAfter != "";
    var contAfter := false;
    if rq.token != "" {
      startAfter, contAfter := false, true;
    }
    var contents, prefixes: set<string>, pkey := [], {}, "";
    ghost var skip := if contAfter then rq.token else rq.startAfter;
    ghost var full := Scan(p, [], {}, rows, 0, "", skip);
    var i := 0;
    while i < |rows|
      invariant 0 <= i <= |rows|
      invariant !(startAfter && contAfter) && (startAfter ==> rq.startAfter != "") && (contAfter ==> rq.token != "")
      invariant skip == if contAfter then rq.token else if startAfter then rq.startAfter else ""
      invariant Scan(p, contents, prefixes, rows, i, pkey, skip) == full
    {
      var row := rows[i];
      i := i + 1;
      if row.key == pkey { continue; }
      pkey := row.key;
      if startAfter {
        if row.key != rq.startAfter { continue; }
        startAfter, skip := false, "";
        continue;
      }
      if contAfter {
        if row.key != rq.token { continue; }
        contAfter, skip := false, "";
        continue;
      }
      if p.delim != "" {
        var pos := Index(row.key[|p.prefix|..], p.delim[0]);
        if pos >= 0 {
          if pos == 0 { continue; }
          prefixes := prefixes + {row.key[..|p.prefix| + pos + 1]};
          continue;
        }
      }
      contents := contents + [row];
      if |contents| >= p.maxKeys {
        return Page(contents, prefixes, true, row.key);
      }
    }
    return Page(contents, prefixes, false, "");
  }

  lemma AfterCons(r: Row, rows: seq<Row>, key: string)
    ensures After([r] + rows, key) == if r.key == key then rows else After(rows, key)
  {
    assert ([r] + rows)[1..] == rows;
  }
}

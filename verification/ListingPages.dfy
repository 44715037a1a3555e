// What the pages of one listing of an unchanged bucket add up to.
module ListingPages {
  import opened Listing

  ghost predicate StrictKeys(rows: seq<Row>) {
    && (forall i, j :: 0 <= i < j < |rows| ==> Lt(rows[i].key, rows[j].key))
    && (forall i :: 0 <= i < |rows| ==> rows[i].key != "")
  }

  // The version FindCurObject returns for r's key among these.
  ghost predicate Current(rows: seq<Row>, r: Row) {
    r in rows && forall s :: s in rows && s.key == r.key ==> s.rover <= r.rover
  }

  ghost predicate From(rows: seq<Row>, pkey: string) {
    forall i :: 0 <= i < |rows| ==> rows[i].key == pkey || Lt(pkey, rows[i].key)
  }

  lemma TailFrom(rows: seq<Row>, prefix: string)
    requires Sorted(rows, prefix) && rows != []
    ensures Sorted(rows[1..], prefix) && From(rows[1..], rows[0].key)
  {
    forall i | 0 <= i < |rows[1..]| ensures rows[1..][i].key == rows[0].key || Lt(rows[0].key, rows[1..][i].key) {
      assert Before(rows[0], rows[i + 1]);
    }
  }

  // Dedup keeps, in strict key order, exactly the current version of every key but pkey.
  lemma {:induction false} DedupIsCurrent(rows: seq<Row>, pkey: string, prefix: string)
    requires Sorted(rows, prefix) && From(rows, pkey)
    ensures StrictKeys(Dedup(rows, pkey))
    ensures forall i :: 0 <= i < |Dedup(rows, pkey)| ==> Lt(pkey, Dedup(rows, pkey)[i].key)
    ensures forall r :: r in Dedup(rows, pkey) <==> r.key != pkey && Current(rows, r)
  {
    if rows != [] {
      var row, rest := rows[0], rows[1..];
      TailFrom(rows, prefix);
      assert rows == [row] + rest;
      if row.key == pkey {
        DedupIsCurrent(rest, pkey, prefix);
        assert forall r: Row :: r.key != pkey ==> (Current(rows, r) <==> Current(rest, r));
      } else {
        DedupIsCurrent(rest, row.key, prefix);
        var d := Dedup(rest, row.key);
        assert Dedup(rows, pkey) == [row] + d;
        FirstIsCurrent(rows, prefix);
        forall i | 0 <= i < |d| ensures Lt(pkey, d[i].key) { LtTransitive(pkey, row.key, d[i].key); }
        forall r: Row ensures r in [row] + d <==> r.key != pkey && Current(rows, r) {
          if r.key == row.key {
            if Current(rows, r) && r != row { OneCurrent(rows, prefix, r); }
          } else {
            assert Current(rows, r) <==> Current(rest, r);
            SmallKeyGone(rest, row.key, pkey);
          }
        }
      }
    }
  }

  lemma SmallKeyGone(rest: seq<Row>, key: string, pkey: string)
    requires From(rest, key) && Lt(pkey, key)
    ensures forall r :: r in rest ==> r.key != pkey
  {
    LtIrreflexive(pkey);
    forall i | 0 <= i < |rest| ensures rest[i].key != pkey {
      if rest[i].key != key { LtTransitive(pkey, key, rest[i].key); }
    }
  }

  lemma FirstIsCurrent(rows: seq<Row>, prefix: string)
    requires Sorted(rows, prefix) && rows != []
    ensures Current(rows, rows[0])
  {
    forall s | s in rows && s.key == rows[0].key ensures s.rover <= rows[0].rover {
      var i :| 0 <= i < |rows| && rows[i] == s;
      if i > 0 { assert Before(rows[0], rows[i]); LtIrreflexive(s.key); }
    }
  }

  lemma OneCurrent(rows: seq<Row>, prefix: string, r: Row)
    requires Sorted(rows, prefix) && rows != [] && Current(rows, r) && r.key == rows[0].key
    ensures r == rows[0]
  {
    var i :| 0 <= i < |rows| && rows[i] == r;
    LtIrreflexive(r.key);
    assert rows[0] in rows;
    assert i > 0 ==> Before(rows[0], rows[i]);
  }

  // --- pages ---

  lemma KeysDiffer(rows: seq<Row>, i: nat, j: nat)
    requires StrictKeys(rows) && i < |rows| && j < |rows| && i != j
    ensures rows[i].key != rows[j].key
  {
    LtIrreflexive(rows[i].key);
    assert if i < j then Lt(rows[i].key, rows[j].key) else Lt(rows[j].key, rows[i].key);
  }

  // The token of a row resumes right behind it.
  lemma {:induction false} AfterRow(rows: seq<Row>, c: nat)
    requires StrictKeys(rows) && c < |rows|
    ensures After(rows, rows[c].key) == rows[c + 1..]
  {
    if c > 0 {
      KeysDiffer(rows, 0, c);
      AfterRow(rows[1..], c - 1);
      assert rows[1..][c - 1 + 1..] == rows[c + 1..];
    }
  }

  lemma {:induction false} AfterMissing(rows: seq<Row>, key: string)
    requires forall r :: r in rows ==> r.key != key
    ensures After(rows, key) == []
  {
    if rows != [] { AfterMissing(rows[1..], key); }
  }

  // Resuming after StartAfter or a token lists the keys greater than it, exactly when that
  // key is itself listed or nothing is greater.
  lemma StartsAfter(rows: seq<Row>, key: string)
    requires StrictKeys(rows)
    ensures (forall r :: r in After(rows, key) <==> r in rows && Lt(key, r.key))
            <==> (exists r :: r in rows && r.key == key) || (forall r :: r in rows ==> !Lt(key, r.key))
  {
    if r :| r in rows && r.key == key {
      var c :| 0 <= c < |rows| && rows[c] == r;
      AfterRow(rows, c);
      LtIrreflexive(key);
      forall s ensures s in rows[c + 1..] <==> s in rows && Lt(key, s.key) {
        if s in rows && Lt(key, s.key) {
          var i :| 0 <= i < |rows| && rows[i] == s;
          if i < c { LtTransitive(rows[i].key, rows[c].key, rows[i].key); LtIrreflexive(rows[i].key); }
          assert rows[c + 1..][i - c - 1] == s;
        }
      }
    } else {
      AfterMissing(rows, key);
    }
  }

  // A key that was deleted since is enough for that: nothing comes behind "a", though "b" does.
  lemma NothingAfterMissing(b: Row)
    requires b.key == "b"
    ensures StrictKeys([b]) && Lt("a", b.key) && After([b], "a") == []
  {
    AfterMissing([b], "a");
  }

  // The pages a client gets that follows the tokens, each request served on its own.
  ghost function Session(p: Params, rows: seq<Row>, startAfter: string, token: string): seq<Page>
    requires ValidParams(p) && StrictKeys(rows) && Keyed(rows, p.prefix)
    requires Resumes(rows, token)
    decreases |Start(Request(p, startAfter, token), rows)|
  {
    var from := Start(Request(p, startAfter, token), rows);
    StartKeyed(p, rows, startAfter, token);
    var page := PageOf(p, from, p.maxKeys);
    if page.truncated then
      NextStart(p, rows, startAfter, token);
      [page] + Session(p, rows, startAfter, page.next)
    else [page]
  }

  // A token handed out by the listing.
  ghost predicate Resumes(rows: seq<Row>, token: string) {
    token == "" || exists i :: 0 <= i < |rows| && rows[i].key == token
  }

  lemma StartKeyed(p: Params, rows: seq<Row>, startAfter: string, token: string)
    requires StrictKeys(rows) && Keyed(rows, p.prefix)
    ensures var from := Start(Request(p, startAfter, token), rows); Keyed(from, p.prefix) && StrictKeys(from)
    ensures exists k :: 0 <= k <= |rows| && Start(Request(p, startAfter, token), rows) == rows[k..]
  {
    AfterIsSuffix(rows, if token != "" then token else startAfter);
    assert rows[0..] == rows;
  }

  lemma {:induction false} AfterIsSuffix(rows: seq<Row>, key: string)
    ensures exists k :: 0 <= k <= |rows| && After(rows, key) == rows[k..]
  {
    if rows == [] {
      assert rows[0..] == [];
    } else if rows[0].key != key {
      AfterIsSuffix(rows[1..], key);
      var k :| 0 <= k <= |rows[1..]| && After(rows[1..], key) == rows[1..][k..];
      assert rows[1..][k..] == rows[k + 1..];
    }
  }

  // The next request starts right behind the last row the page consumed.
  lemma NextStart(p: Params, rows: seq<Row>, startAfter: string, token: string)
    requires ValidParams(p) && StrictKeys(rows) && Keyed(rows, p.prefix)
    requires var from := Start(Request(p, startAfter, token), rows); Keyed(from, p.prefix) && Cut(p, from, p.maxKeys).1
    ensures var from := Start(Request(p, startAfter, token), rows);
            var page := PageOf(p, from, p.maxKeys);
            && Resumes(rows, page.next) && page.next != ""
            && Start(Request(p, startAfter, page.next), rows) == from[Cut(p, from, p.maxKeys).0..]
  {
    StartKeyed(p, rows, startAfter, token);
    var from := Start(Request(p, startAfter, token), rows);
    var k :| 0 <= k <= |rows| && from == rows[k..];
    var c := Cut(p, from, p.maxKeys).0;
    ResumeAt(rows, k, c);
    assert PageOf(p, from, p.maxKeys).next == from[c - 1].key == rows[k + c - 1].key;
  }

  lemma ResumeAt(rows: seq<Row>, k: nat, c: nat)
    requires StrictKeys(rows) && c > 0 && k + c <= |rows|
    ensures rows[k..][c - 1] == rows[k + c - 1]
    ensures After(rows, rows[k + c - 1].key) == rows[k..][c..]
  {
    AfterRow(rows, k + c - 1);
  }

  // The same pages, cut from one sequence of rows.
  ghost function Pages(p: Params, rows: seq<Row>): seq<Page>
    requires ValidParams(p) && Keyed(rows, p.prefix)
    decreases |rows|
  {
    var page := PageOf(p, rows, p.maxKeys);
    if page.truncated then [page] + Pages(p, rows[Cut(p, rows, p.maxKeys).0..]) else [page]
  }

  lemma {:induction false} SessionIsPages(p: Params, rows: seq<Row>, startAfter: string, token: string)
    requires ValidParams(p) && StrictKeys(rows) && Keyed(rows, p.prefix) && Resumes(rows, token)
    ensures Keyed(Start(Request(p, startAfter, token), rows), p.prefix)
    ensures Session(p, rows, startAfter, token) == Pages(p, Start(Request(p, startAfter, token), rows))
    decreases |Start(Request(p, startAfter, token), rows)|
  {
    StartKeyed(p, rows, startAfter, token);
    var page := PageOf(p, Start(Request(p, startAfter, token), rows), p.maxKeys);
    if page.truncated {
      NextStart(p, rows, startAfter, token);
      SessionIsPages(p, rows, startAfter, page.next);
    }
  }

  function Contents(pages: seq<Page>): seq<Row> {
    if pages == [] then [] else pages[0].contents + Contents(pages[1..])
  }

  lemma {:induction false} PlainsConcat(p: Params, a: seq<Row>, b: seq<Row>)
    requires ValidParams(p) && Keyed(a, p.prefix) && Keyed(b, p.prefix) && Keyed(a + b, p.prefix)
    ensures Plains(p, a + b) == Plains(p, a) + Plains(p, b)
  {
    if a == [] {
      assert a + b == b;
    } else {
      assert (a + b)[1..] == a[1..] + b;
      PlainsConcat(p, a[1..], b);
    }
  }

  lemma GroupsSplit(p: Params, rows: seq<Row>, c: nat)
    requires ValidParams(p) && Keyed(rows, p.prefix) && c <= |rows|
    ensures Groups(p, rows) == Groups(p, rows[..c]) + Groups(p, rows[c..])
  {
    forall g | g in Groups(p, rows) ensures g in Groups(p, rows[..c]) || g in Groups(p, rows[c..]) {
      var i :| 0 <= i < |rows| && Classify(p, rows[i].key).Grouped? && Classify(p, rows[i].key).group == g;
      assert if i < c then rows[..c][i] == rows[i] else rows[c..][i - c] == rows[i];
    }
    forall g | g in Groups(p, rows[c..]) ensures g in Groups(p, rows) {
      var i :| 0 <= i < |rows[c..]| && Classify(p, rows[c..][i].key).Grouped?
              && Classify(p, rows[c..][i].key).group == g;
      assert rows[i + c] == rows[c..][i];
    }
  }

  lemma GroupIsPrefix(p: Params, key: string)
    requires ValidParams(p) && p.prefix <= key && Classify(p, key).Grouped?
    ensures Classify(p, key).group <= key
  {
  }

  // No group reaches across a key that is listed by itself.
  lemma NoGroupAcross(p: Params, a: string, k: string, b: string)
    requires ValidParams(p) && p.prefix <= a && p.prefix <= k && p.prefix <= b
    requires Lt(a, k) && Lt(k, b) && Classify(p, k) == Plain
    ensures Classify(p, a).Grouped? ==> Classify(p, b) != Classify(p, a)
  {
    if Classify(p, a).Grouped? && Classify(p, b) == Classify(p, a) {
      GroupIsPrefix(p, a);
      GroupIsPrefix(p, b);
      PrefixBetween(Classify(p, a).group, a, k, b);
      GroupSpreads(p, a, k);
    }
  }

  // A page ends on such a key: no row up to it and no row behind it name one group.
  lemma ClassesDontCross(p: Params, rows: seq<Row>, i: nat, c: nat, j: nat)
    requires ValidParams(p) && Keyed(rows, p.prefix) && StrictKeys(rows) && i < c && c + j < |rows|
    requires Classify(p, rows[c - 1].key) == Plain
    ensures Classify(p, rows[..c][i].key).Grouped? ==>
              Classify(p, rows[c..][j].key) != Classify(p, rows[..c][i].key)
  {
    assert rows[..c][i] == rows[i] && rows[c..][j] == rows[c + j];
    if i < c - 1 { NoGroupAcross(p, rows[i].key, rows[c - 1].key, rows[c + j].key); }
  }

  lemma GroupRow(p: Params, rows: seq<Row>, g: string) returns (i: nat)
    requires ValidParams(p) && Keyed(rows, p.prefix) && g in Groups(p, rows)
    ensures i < |rows| && Classify(p, rows[i].key) == Grouped(g)
  {
    i :| i < |rows| && Classify(p, rows[i].key).Grouped? && Classify(p, rows[i].key).group == g;
  }

  lemma GroupsDontCross(p: Params, rows: seq<Row>, c: nat)
    requires ValidParams(p) && Keyed(rows, p.prefix) && StrictKeys(rows) && 0 < c <= |rows|
    requires Classify(p, rows[c - 1].key) == Plain
    ensures Groups(p, rows[..c]) !! Groups(p, rows[c..])
  {
    if g :| g in Groups(p, rows[..c]) && g in Groups(p, rows[c..]) {
      var i := GroupRow(p, rows[..c], g);
      var j := GroupRow(p, rows[c..], g);
      ClassesDontCross(p, rows, i, c, j);
    }
  }

  // Every one of these groups is named on exactly one page, and nothing else is.
  ghost predicate GroupsOnce(pages: seq<Page>, groups: set<string>) {
    && (forall i :: 0 <= i < |pages| ==> pages[i].prefixes <= groups)
    && (forall g :: g in groups ==> exists i :: 0 <= i < |pages| && g in pages[i].prefixes)
    && (forall i, j :: 0 <= i < j < |pages| ==> pages[i].prefixes !! pages[j].prefixes)
  }

  lemma GroupsOnceCons(page: Page, more: seq<Page>, groups: set<string>)
    requires GroupsOnce(more, groups) && page.prefixes !! groups
    ensures GroupsOnce([page] + more, page.prefixes + groups)
  {
    var all := [page] + more;
    forall g | g in page.prefixes + groups ensures exists i :: 0 <= i < |all| && g in all[i].prefixes {
      if g in page.prefixes {
        assert g in all[0].prefixes;
      } else {
        var i :| 0 <= i < |more| && g in more[i].prefixes;
        assert all[i + 1] == more[i];
      }
    }
  }

  lemma CutOff(p: Params, rows: seq<Row>)
    requires ValidParams(p) && Keyed(rows, p.prefix) && StrictKeys(rows) && PageOf(p, rows, p.maxKeys).truncated
    ensures var page, rest := PageOf(p, rows, p.maxKeys), rows[Cut(p, rows, p.maxKeys).0..];
            && Plains(p, rows) == page.contents + Plains(p, rest)
            && Groups(p, rows) == page.prefixes + Groups(p, rest) && page.prefixes !! Groups(p, rest)
  {
    PageSplits(p, rows, Cut(p, rows, p.maxKeys).0);
  }

  lemma TakenWhole(p: Params, rows: seq<Row>)
    requires ValidParams(p) && Keyed(rows, p.prefix) && !PageOf(p, rows, p.maxKeys).truncated
    ensures var page, rest := PageOf(p, rows, p.maxKeys), rows[Cut(p, rows, p.maxKeys).0..];
            && rest == [] && Plains(p, rows) == page.contents + Plains(p, rest)
            && Groups(p, rows) == page.prefixes + Groups(p, rest) && page.prefixes !! Groups(p, rest)
  {
    NothingLeft(p, rows);
  }

  lemma PagesUnfold(p: Params, rows: seq<Row>)
    requires ValidParams(p) && Keyed(rows, p.prefix)
    ensures var page, rest := PageOf(p, rows, p.maxKeys), rows[Cut(p, rows, p.maxKeys).0..];
            Pages(p, rows) == if page.truncated then [page] + Pages(p, rest) else [page] + []
  {
    var page := PageOf(p, rows, p.maxKeys);
    assert [page] + [] == [page];
  }

  lemma TailOrdered(rows: seq<Row>, prefix: string, c: nat)
    requires Keyed(rows, prefix) && StrictKeys(rows) && c <= |rows|
    ensures Keyed(rows[c..], prefix) && StrictKeys(rows[c..])
  {
  }

  // One page and what the others are cut from.
  lemma FirstPage(p: Params, rows: seq<Row>) returns (page: Page, c: nat)
    requires ValidParams(p) && Keyed(rows, p.prefix) && StrictKeys(rows)
    ensures c <= |rows| && Keyed(rows[c..], p.prefix) && StrictKeys(rows[c..])
    ensures Plains(p, rows) == page.contents + Plains(p, rows[c..])
    ensures Groups(p, rows) == page.prefixes + Groups(p, rows[c..]) && page.prefixes !! Groups(p, rows[c..])
    ensures |page.contents| <= p.maxKeys && (page.truncated ==> |page.contents| == p.maxKeys)
    ensures c == 0 ==> rows == []
    ensures Pages(p, rows) == if page.truncated then [page] + Pages(p, rows[c..]) else [page] + []
    ensures !page.truncated ==> c == |rows|
  {
    page, c := PageOf(p, rows, p.maxKeys), Cut(p, rows, p.maxKeys).0;
    TailOrdered(rows, p.prefix, c);
    PageFits(p, rows, p.maxKeys);
    PagesUnfold(p, rows);
    if page.truncated { CutOff(p, rows); } else { TakenWhole(p, rows); }
  }

  lemma NothingLeft(p: Params, rows: seq<Row>)
    requires ValidParams(p) && Keyed(rows, p.prefix)
    ensures rows[..|rows|] == rows && rows[|rows|..] == []
    ensures Plains(p, rows) == Plains(p, rows) + Plains(p, []) && Groups(p, rows) == Groups(p, rows) + Groups(p, [])
    ensures Groups(p, []) == {}
  {
  }

  // Every page but the last is full and says that there is more.
  ghost predicate FullButLast(pages: seq<Page>, maxKeys: nat) {
    && pages != []
    && forall i :: 0 <= i < |pages| ==>
         && |pages[i].contents| <= maxKeys
         && (i < |pages| - 1 <==> pages[i].truncated)
         && (pages[i].truncated ==> |pages[i].contents| == maxKeys)
  }

  lemma FullButLastCons(page: Page, more: seq<Page>, maxKeys: nat)
    requires |page.contents| <= maxKeys && (page.truncated ==> |page.contents| == maxKeys)
    requires if page.truncated then FullButLast(more, maxKeys) else more == []
    ensures FullButLast([page] + more, maxKeys)
  {
    var all := [page] + more;
    assert forall i :: 1 <= i < |all| ==> all[i] == more[i - 1];
  }

  // The contents concatenate to the plainly listed keys in order.
  lemma {:induction false} PagesAddUp(p: Params, rows: seq<Row>)
    requires ValidParams(p) && Keyed(rows, p.prefix) && StrictKeys(rows)
    ensures Contents(Pages(p, rows)) == Plains(p, rows)
    ensures FullButLast(Pages(p, rows), p.maxKeys)
    decreases |rows|
  {
    var page, c := FirstPage(p, rows);
    if page.truncated && rows != [] {
      var more := Pages(p, rows[c..]);
      PagesAddUp(p, rows[c..]);
      ContentsCons(page, more);
      FullButLastCons(page, more, p.maxKeys);
    } else {
      ContentsCons(page, []);
      FullButLastCons(page, [], p.maxKeys);
    }
  }

  // Every group of the listed keys is named on exactly one page.
  lemma {:induction false} PagesNameGroupsOnce(p: Params, rows: seq<Row>)
    requires ValidParams(p) && Keyed(rows, p.prefix) && StrictKeys(rows)
    ensures GroupsOnce(Pages(p, rows), Groups(p, rows))
    decreases |rows|
  {
    var page, c := FirstPage(p, rows);
    var more := if page.truncated then Pages(p, rows[c..]) else [];
    if page.truncated && rows != [] { PagesNameGroupsOnce(p, rows[c..]); }
    GroupsOnceCons(page, more, Groups(p, rows[c..]));
  }

  lemma ContentsCons(page: Page, more: seq<Page>)
    ensures Contents([page] + more) == page.contents + Contents(more)
  {
    assert ([page] + more)[1..] == more;
  }

  lemma PageSplits(p: Params, rows: seq<Row>, c: nat)
    requires ValidParams(p) && Keyed(rows, p.prefix) && StrictKeys(rows) && 0 < c <= |rows|
    requires Classify(p, rows[c - 1].key) == Plain
    ensures Plains(p, rows) == Plains(p, rows[..c]) + Plains(p, rows[c..])
    ensures Groups(p, rows) == Groups(p, rows[..c]) + Groups(p, rows[c..])
    ensures Groups(p, rows[..c]) !! Groups(p, rows[c..])
  {
    assert rows == rows[..c] + rows[c..];
    PlainsConcat(p, rows[..c], rows[c..]);
    GroupsSplit(p, rows, c);
    GroupsDontCross(p, rows, c);
  }

  lemma {:induction false} PageFits(p: Params, rows: seq<Row>, n: nat)
    requires ValidParams(p) && Keyed(rows, p.prefix) && n > 0
    ensures |PageOf(p, rows, n).contents| <= n
    ensures PageOf(p, rows, n).truncated ==> |PageOf(p, rows, n).contents| == n
  {
    if rows != [] {
      assert rows == [rows[0]] + rows[1..];
      PageCons(p, rows[0], rows[1..], n);
      var plain := Classify(p, rows[0].key) == Plain;
      if !plain || n > 1 { PageFits(p, rows[1..], if plain then n - 1 else n); }
    }
  }

  // --- a whole listing ---

  lemma DroppedMeans(p: Params, key: string)
    requires ValidParams(p) && p.prefix <= key && p.delim != ""
    ensures Index(key[|p.prefix|..], p.delim[0]) == 0 <==> p.prefix + p.delim <= key
  {
    var rest := key[|p.prefix|..];
    assert key == p.prefix + rest;
    if Index(rest, p.delim[0]) == 0 { assert key[..|p.prefix| + 1] == p.prefix + p.delim; }
    if p.prefix + p.delim <= key { assert rest[0] == (p.prefix + p.delim)[|p.prefix|]; }
  }

  // What a class says about a key, in terms of the key's text.
  lemma ClassMeans(p: Params, key: string, mid: string)
    requires ValidParams(p) && p.prefix <= key
    ensures Classify(p, key) == Plain <==> p.delim == "" || p.delim[0] !in key[|p.prefix|..]
    ensures Classify(p, key) == Dropped <==> p.delim != "" && p.prefix + p.delim <= key
    ensures Classify(p, key) == Grouped(p.prefix + mid + p.delim)
            <==> p.delim != "" && mid != "" && p.delim[0] !in mid && p.prefix + mid + p.delim <= key
  {
    if p.delim != "" {
      var rest := key[|p.prefix|..];
      assert key == p.prefix + rest;
      DroppedMeans(p, key);
      GroupText(p.prefix, rest, p.delim, mid);
    }
  }

  lemma GroupText(prefix: string, rest: string, delim: string, mid: string)
    requires |delim| == 1
    ensures var pos := Index(rest, delim[0]);
            && (pos > 0 && (prefix + rest)[..|prefix| + pos + 1] == prefix + mid + delim
                <==> mid != "" && delim[0] !in mid && prefix + mid + delim <= prefix + rest)
  {
    var pos, key, g := Index(rest, delim[0]), prefix + rest, prefix + mid + delim;
    if pos > 0 {
      assert key[..|prefix| + pos + 1] == prefix + rest[..pos] + delim;
      if key[..|prefix| + pos + 1] == g {
        assert rest[..pos] == key[|prefix|..|prefix| + pos] == g[|prefix|..|prefix| + pos] == mid;
      }
    }
    if mid != "" && delim[0] !in mid && g <= key {
      assert rest[..|mid|] == key[|prefix|..|prefix| + |mid|] == g[|prefix|..|prefix| + |mid|] == mid;
      assert rest[|mid|] == key[|prefix| + |mid|] == g[|prefix| + |mid|] == delim[0];
      IndexUnique(rest, delim[0], |mid|);
      assert key[..|g|] == g;
    }
  }

  // The rows a listing that starts after this key is about.
  ghost predicate Wanted(rows: seq<Row>, startAfter: string, r: Row) { Current(rows, r) && Lt(startAfter, r.key) }

  lemma {:induction false} PlainsAre(p: Params, rows: seq<Row>)
    requires ValidParams(p) && Keyed(rows, p.prefix) && StrictKeys(rows)
    ensures StrictKeys(Plains(p, rows))
    ensures forall r :: r in Plains(p, rows) <==> r in rows && Classify(p, r.key) == Plain
  {
    if rows != [] {
      PlainsAre(p, rows[1..]);
      assert rows == [rows[0]] + rows[1..];
      var more := Plains(p, rows[1..]);
      forall i | 0 <= i < |more| ensures Lt(rows[0].key, more[i].key) {
        assert more[i] in rows[1..];
      }
    }
  }

  lemma WantedRows(p: Params, rows: seq<Row>, startAfter: string)
    requires ValidParams(p) && Sorted(rows, p.prefix)
    requires startAfter == "" || exists i :: 0 <= i < |rows| && rows[i].key == startAfter
    ensures StrictKeys(Dedup(rows, "")) && Keyed(Dedup(rows, ""), p.prefix)
    ensures forall r :: r in Start(Request(p, startAfter, ""), Dedup(rows, "")) <==> Wanted(rows, startAfter, r)
  {
    DedupIsCurrent(rows, "", p.prefix);
    DedupKeyed(rows, "", p.prefix);
    if startAfter != "" {
      HasCurrent(rows, p.prefix, startAfter);
      StartsAfter(Dedup(rows, ""), startAfter);
    }
  }

  // Every key has a current version.
  lemma {:induction false} HasCurrent(rows: seq<Row>, prefix: string, key: string)
    requires Sorted(rows, prefix) && exists i :: 0 <= i < |rows| && rows[i].key == key
    ensures exists r :: Current(rows, r) && r.key == key
  {
    FirstIsCurrent(rows, prefix);
    if rows[0].key != key {
      TailFrom(rows, prefix);
      var i :| 0 <= i < |rows| && rows[i].key == key;
      assert rows[1..][i - 1].key == key;
      HasCurrent(rows[1..], prefix, key);
      var r :| Current(rows[1..], r) && r.key == key;
      assert rows == [rows[0]] + rows[1..];
      assert Current(rows, r);
    }
  }

  // The groups of the wanted keys.
  ghost predicate GroupOf(p: Params, rows: seq<Row>, startAfter: string, g: string)
    requires ValidParams(p)
  {
    exists r :: Wanted(rows, startAfter, r) && p.prefix <= r.key && Classify(p, r.key) == Grouped(g)
  }

  // A client that starts after an existing key, or from the beginning, and follows the tokens
  // to the end gets full pages, then one that is not, and on them the current version of
  // every later key that is not grouped, once and in key order.
  lemma WholeListing(p: Params, rows: seq<Row>, startAfter: string)
    requires ValidParams(p) && Sorted(rows, p.prefix)
    requires startAfter == "" || exists i :: 0 <= i < |rows| && rows[i].key == startAfter
    ensures StrictKeys(Dedup(rows, "")) && Keyed(Dedup(rows, ""), p.prefix)
    ensures var pages := Session(p, Dedup(rows, ""), startAfter, "");
            && FullButLast(pages, p.maxKeys)
            && StrictKeys(Contents(pages))
            && (forall r :: r in Contents(pages)
                 <==> Wanted(rows, startAfter, r) && p.prefix <= r.key && Classify(p, r.key) == Plain)
  {
    WantedRows(p, rows, startAfter);
    var listed := Dedup(rows, "");
    var from := Start(Request(p, startAfter, ""), listed);
    StartKeyed(p, listed, startAfter, "");
    SessionIsPages(p, listed, startAfter, "");
    PagesAddUp(p, from);
    PlainsAre(p, from);
  }

  lemma GroupsAre(p: Params, rows: seq<Row>, startAfter: string, from: seq<Row>)
    requires ValidParams(p) && Keyed(from, p.prefix)
    requires forall r :: r in from <==> Wanted(rows, startAfter, r)
    ensures forall g :: g in Groups(p, from) <==> GroupOf(p, rows, startAfter, g)
  {
    forall g ensures g in Groups(p, from) <==> GroupOf(p, rows, startAfter, g) {
      if r :| Wanted(rows, startAfter, r) && p.prefix <= r.key && Classify(p, r.key) == Grouped(g) {
        var i :| 0 <= i < |from| && from[i] == r;
      }
      if g in Groups(p, from) {
        var i :| 0 <= i < |from| && Classify(p, from[i].key).Grouped? && Classify(p, from[i].key).group == g;
        assert Wanted(rows, startAfter, from[i]);
      }
    }
  }

  // And the pages name, each exactly once, the groups of the later keys.
  lemma WholeListingGroups(p: Params, rows: seq<Row>, startAfter: string)
    requires ValidParams(p) && Sorted(rows, p.prefix)
    requires startAfter == "" || exists i :: 0 <= i < |rows| && rows[i].key == startAfter
    ensures StrictKeys(Dedup(rows, "")) && Keyed(Dedup(rows, ""), p.prefix)
    ensures var pages := Session(p, Dedup(rows, ""), startAfter, "");
            && (forall g :: GroupOf(p, rows, startAfter, g) <==> exists i :: 0 <= i < |pages| && g in pages[i].prefixes)
            && (forall i, j :: 0 <= i < j < |pages| ==> pages[i].prefixes !! pages[j].prefixes)
  {
    WantedRows(p, rows, startAfter);
    var listed := Dedup(rows, "");
    var from := Start(Request(p, startAfter, ""), listed);
    StartKeyed(p, listed, startAfter, "");
    SessionIsPages(p, listed, startAfter, "");
    PagesNameGroupsOnce(p, from);
    GroupsAre(p, rows, startAfter, from);
  }
}

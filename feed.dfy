/**
 * The home page feed (`inicio`): every note, concert, release and
 * recommendation becomes an item tagged with its kind and keyed by its
 * creation time; the items are sorted newest first, stably, and the first
 * twelve are shown. Also the YouTube embed URL of an artist's page.
 */
module Feed {
  import opened Wrappers
  import opened Text

  /** The kinds of record the site stores. */
  datatype Tipo = Nota | Artista | Concierto | Lanzamiento | Recomendacion

  /** A stored record as the feed sees it: its primary key and its creation time. */
  datatype Registro = Registro(pk: nat, createdAt: int)

  /** One feed entry: `{'tipo': ..., 'obj': ..., 'orden': ...}`. */
  datatype Item = Item(tipo: Tipo, obj: Registro, orden: int)

  /** How many items the home page shows. */
  const FeedSize: nat := 12

  /** The items one table contributes, in the table's order. */
  function Tagged(tipo: Tipo, rs: seq<Registro>): seq<Item> {
    seq(|rs|, i requires 0 <= i < |rs| => Item(tipo, rs[i], rs[i].createdAt))
  }

  /** All items in build order: notes, then concerts, then releases, then recommendations. */
  function Built(notas: seq<Registro>, conciertos: seq<Registro>,
                 lanzamientos: seq<Registro>, recomendaciones: seq<Registro>): seq<Item>
  {
    Tagged(Nota, notas) + Tagged(Concierto, conciertos) +
    Tagged(Lanzamiento, lanzamientos) + Tagged(Recomendacion, recomendaciones)
  }

  /** Appends the items of one table to `items`, one record at a time. */
  method AppendTagged(items: seq<Item>, tipo: Tipo, rs: seq<Registro>) returns (out: seq<Item>)
    ensures out == items + Tagged(tipo, rs)
  {
    out := items;
    for i := 0 to |rs|
      invariant out == items + Tagged(tipo, rs[..i])
    {
      out := out + [Item(tipo, rs[i], rs[i].createdAt)];
    }
    assert rs[..|rs|] == rs;
  }

  /** The four loops of `inicio` that build the item list. */
  method BuildItems(notas: seq<Registro>, conciertos: seq<Registro>,
                    lanzamientos: seq<Registro>, recomendaciones: seq<Registro>)
    returns (items: seq<Item>)
    ensures items == Built(notas, conciertos, lanzamientos, recomendaciones)
  {
    items := [];
    items := AppendTagged(items, Nota, notas);
    items := AppendTagged(items, Concierto, conciertos);
    items := AppendTagged(items, Lanzamiento, lanzamientos);
    items := AppendTagged(items, Recomendacion, recomendaciones);
  }

  /** Every built item carries its own record's creation time and the kind of the table it came from. */
  lemma BuiltItemsWellTagged(notas: seq<Registro>, conciertos: seq<Registro>,
                             lanzamientos: seq<Registro>, recomendaciones: seq<Registro>, it: Item)
    requires it in Built(notas, conciertos, lanzamientos, recomendaciones)
    ensures it.orden == it.obj.createdAt && it.tipo != Artista
    ensures it.tipo == Nota ==> it.obj in notas
    ensures it.tipo == Concierto ==> it.obj in conciertos
    ensures it.tipo == Lanzamiento ==> it.obj in lanzamientos
    ensures it.tipo == Recomendacion ==> it.obj in recomendaciones
  {
    var n, c, l, r := Tagged(Nota, notas), Tagged(Concierto, conciertos),
                      Tagged(Lanzamiento, lanzamientos), Tagged(Recomendacion, recomendaciones);
    var b := n + c + l + r;
    var i :| 0 <= i < |b| && b[i] == it;
    if i < |n| {
      assert it == n[i];
    } else if i < |n| + |c| {
      assert it == c[i - |n|];
    } else if i < |n| + |c| + |l| {
      assert it == l[i - |n| - |c|];
    } else {
      assert it == r[i - |n| - |c| - |l|];
    }
  }

  /** Position of a kind in the build order; artists are never built. */
  function Rank(t: Tipo): nat {
    match t
    case Nota => 0
    case Concierto => 1
    case Lanzamiento => 2
    case Recomendacion => 3
    case Artista => 4
  }

  /** The built list is grouped by kind in build order. */
  lemma BuiltRankSorted(notas: seq<Registro>, conciertos: seq<Registro>,
                        lanzamientos: seq<Registro>, recomendaciones: seq<Registro>)
    ensures RankSorted(Built(notas, conciertos, lanzamientos, recomendaciones))
  {
    var n, c, l, r := Tagged(Nota, notas), Tagged(Concierto, conciertos),
                      Tagged(Lanzamiento, lanzamientos), Tagged(Recomendacion, recomendaciones);
    var b := n + c + l + r;
    forall i, j | 0 <= i < j < |b| ensures Rank(b[i].tipo) <= Rank(b[j].tipo) {
      assert Rank(b[i].tipo) == if i < |n| then 0 else if i < |n| + |c| then 1
                                else if i < |n| + |c| + |l| then 2 else 3;
      assert Rank(b[j].tipo) == if j < |n| then 0 else if j < |n| + |c| then 1
                                else if j < |n| + |c| + |l| then 2 else 3;
    }
  }

  predicate RankSorted(s: seq<Item>) {
    forall i, j :: 0 <= i < j < |s| ==> Rank(s[i].tipo) <= Rank(s[j].tipo)
  }

  /** Non-increasing in `orden`: newest first. */
  predicate Desc(s: seq<Item>) {
    forall i, j :: 0 <= i < j < |s| ==> s[i].orden >= s[j].orden
  }

  /** Items with equal `orden` appear in build order of their kinds. */
  predicate TiesByRank(s: seq<Item>) {
    forall i, j :: 0 <= i < j < |s| && s[i].orden == s[j].orden ==> Rank(s[i].tipo) <= Rank(s[j].tipo)
  }

  /** The items with `orden == k`, in order. */
  function WithOrden(s: seq<Item>, k: int): (r: seq<Item>)
    ensures |r| <= |s|
  {
    if s == [] then []
    else WithOrden(s[..|s| - 1], k) + (if s[|s| - 1].orden == k then [s[|s| - 1]] else [])
  }

  /** Places `x` after every item of `t` whose key is at least `x`'s. */
  function InsertDesc(t: seq<Item>, x: Item): seq<Item> {
    if t == [] then [x]
    else if t[0].orden >= x.orden then [t[0]] + InsertDesc(t[1..], x)
    else [x] + t
  }

  /** `sorted(items, key=orden, reverse=True)`: an insertion sort, stable like Python's. */
  function SortDesc(s: seq<Item>): seq<Item> {
    if s == [] then [] else InsertDesc(SortDesc(s[..|s| - 1]), s[|s| - 1])
  }

  /** In a sorted list, `InsertDesc` splits it at the first item older than `x`. */
  lemma {:induction false} InsertSplit(t: seq<Item>, x: Item) returns (p: nat)
    requires Desc(t)
    ensures p <= |t| && InsertDesc(t, x) == t[..p] + [x] + t[p..]
    ensures forall i :: 0 <= i < p ==> t[i].orden >= x.orden
    ensures forall i :: p <= i < |t| ==> t[i].orden < x.orden
  {
    if t == [] {
      p := 0;
    } else if t[0].orden >= x.orden {
      var q := InsertSplit(t[1..], x);
      p := q + 1;
      assert t[..p] == [t[0]] + t[1..][..q];
      assert t[p..] == t[1..][q..];
    } else {
      p := 0;
    }
  }

  /** A sorted list stays sorted under a head no older than any of its items. */
  lemma DescCons(h: Item, rest: seq<Item>)
    requires Desc(rest) && forall y :: y in rest ==> h.orden >= y.orden
    ensures Desc([h] + rest)
  {
    var r := [h] + rest;
    forall i, j | 0 <= i < j < |r| ensures r[i].orden >= r[j].orden {
      assert r[j] == rest[j - 1];
      if i > 0 {
        assert r[i] == rest[i - 1];
      }
    }
  }

  /** Inserting into a sorted list keeps it sorted and adds exactly `x`. */
  lemma {:induction false} InsertDescSorted(t: seq<Item>, x: Item)
    requires Desc(t)
    ensures Desc(InsertDesc(t, x)) && multiset(InsertDesc(t, x)) == multiset(t) + multiset{x}
    decreases |t|
  {
    if t == [] {
    } else if t[0].orden >= x.orden {
      var rest := InsertDesc(t[1..], x);
      assert t == [t[0]] + t[1..];
      InsertDescSorted(t[1..], x);
      forall y | y in rest ensures t[0].orden >= y.orden {
        assert y in multiset(rest);
        if y != x {
          assert y in t[1..];
        }
      }
      DescCons(t[0], rest);
    } else {
      forall y | y in t ensures x.orden >= y.orden { }
      DescCons(x, t);
    }
  }

  /** The sort returns its input, reordered newest first. */
  lemma {:induction false} SortDescSortedPermutation(s: seq<Item>)
    ensures Desc(SortDesc(s)) && multiset(SortDesc(s)) == multiset(s)
  {
    if s != [] {
      var init, x := s[..|s| - 1], s[|s| - 1];
      SortDescSortedPermutation(init);
      InsertDescSorted(SortDesc(init), x);
      assert s == init + [x];
    }
  }

  lemma WithOrdenAppend(a: seq<Item>, b: seq<Item>, k: int)
    ensures WithOrden(a + b, k) == WithOrden(a, k) + WithOrden(b, k)
    decreases |b|
  {
    if b != [] {
      assert (a + b)[..|a + b| - 1] == a + b[..|b| - 1];
      WithOrdenAppend(a, b[..|b| - 1], k);
    } else {
      assert a + b == a;
    }
  }

  lemma WithOrdenNone(s: seq<Item>, k: int)
    requires forall i :: 0 <= i < |s| ==> s[i].orden != k
    ensures WithOrden(s, k) == []
    decreases |s|
  {
    if s != [] {
      WithOrdenNone(s[..|s| - 1], k);
    }
  }

  /** Inserting `x` into a sorted list puts it after every item with its key. */
  lemma InsertDescStable(t: seq<Item>, x: Item, k: int)
    requires Desc(t)
    ensures WithOrden(InsertDesc(t, x), k) == WithOrden(t, k) + (if x.orden == k then [x] else [])
  {
    var p := InsertSplit(t, x);
    assert t == t[..p] + t[p..];
    WithOrdenAppend(t[..p] + [x], t[p..], k);
    WithOrdenAppend(t[..p], [x], k);
    WithOrdenAppend(t[..p], t[p..], k);
    assert WithOrden([x], k) == (if x.orden == k then [x] else []) by {
      assert [x][..0] == [];
    }
    if x.orden == k {
      WithOrdenNone(t[p..], k);
    }
  }

  /**
   * Stability: for every key, the items with that key come out of the sort
   * in the order they went in.
   */
  lemma {:induction false} SortDescStable(s: seq<Item>, k: int)
    ensures WithOrden(SortDesc(s), k) == WithOrden(s, k)
  {
    if s != [] {
      var init, x := s[..|s| - 1], s[|s| - 1];
      SortDescStable(init, k);
      SortDescSortedPermutation(init);
      InsertDescStable(SortDesc(init), x, k);
    }
  }

  /** Ties stay in kind order under a head that ranks no later than any item it ties with. */
  lemma TiesCons(h: Item, rest: seq<Item>)
    requires TiesByRank(rest)
    requires forall y :: y in rest && y.orden == h.orden ==> Rank(h.tipo) <= Rank(y.tipo)
    ensures TiesByRank([h] + rest)
  {
    var r := [h] + rest;
    forall i, j | 0 <= i < j < |r| && r[i].orden == r[j].orden ensures Rank(r[i].tipo) <= Rank(r[j].tipo) {
      assert r[j] == rest[j - 1];
      if i > 0 {
        assert r[i] == rest[i - 1];
      }
    }
  }

  /** Inserting an item of the latest kind so far into a sorted list keeps ties in kind order. */
  lemma {:induction false} InsertDescTies(t: seq<Item>, x: Item)
    requires Desc(t) && TiesByRank(t)
    requires forall y :: y in t ==> Rank(y.tipo) <= Rank(x.tipo)
    ensures TiesByRank(InsertDesc(t, x))
    decreases |t|
  {
    if t == [] {
    } else if t[0].orden >= x.orden {
      var tail := t[1..];
      assert Desc(tail) && TiesByRank(tail) by {
        forall i, j | 0 <= i < j < |tail| ensures tail[i] == t[i + 1] && tail[j] == t[j + 1] { }
      }
      InsertDescTies(tail, x);
      InsertDescSorted(tail, x);
      var rest := InsertDesc(tail, x);
      forall y | y in rest && y.orden == t[0].orden ensures Rank(t[0].tipo) <= Rank(y.tipo) {
        assert y in multiset(rest);
        if y != x {
          var k :| 0 <= k < |tail| && tail[k] == y;
          assert t[k + 1] == y;
        }
      }
      TiesCons(t[0], rest);
    } else {
      forall y | y in t ensures y.orden < x.orden {
        var k :| 0 <= k < |t| && t[k] == y;
        assert t[0].orden >= t[k].orden || k == 0;
      }
      TiesCons(x, t);
    }
  }

  /** Sorting a list grouped by kind breaks ties by kind: notes, concerts, releases, recommendations. */
  lemma {:induction false} SortDescTies(s: seq<Item>)
    requires RankSorted(s)
    ensures TiesByRank(SortDesc(s))
  {
    if s != [] {
      var init, x := s[..|s| - 1], s[|s| - 1];
      SortDescTies(init);
      SortDescSortedPermutation(init);
      var t := SortDesc(init);
      forall y | y in t ensures Rank(y.tipo) <= Rank(x.tipo) {
        assert y in multiset(init);
        var m :| 0 <= m < |init| && init[m] == y;
        assert s[m] == y;
      }
      InsertDescTies(t, x);
    }
  }

  /** `sorted(items, key=orden, reverse=True)[:k]` */
  function Latest(items: seq<Item>, k: nat): seq<Item> {
    var sorted := SortDesc(items);
    sorted[..if |sorted| < k then |sorted| else k]
  }

  /** The items `Latest` leaves out are no newer than any it keeps. */
  lemma LatestTopK(items: seq<Item>, k: nat)
    ensures |Latest(items, k)| == (if |items| < k then |items| else k)
    ensures Desc(Latest(items, k))
    ensures multiset(Latest(items, k)) <= multiset(items)
    ensures |items| <= k ==> multiset(Latest(items, k)) == multiset(items)
    ensures forall x, y :: x in multiset(items) - multiset(Latest(items, k)) && y in Latest(items, k) ==>
      x.orden <= y.orden
  {
    SortDescSortedPermutation(items);
    var sorted := SortDesc(items);
    var m := if |sorted| < k then |sorted| else k;
    SplitSorted(sorted, m);
    assert multiset(items) - multiset(sorted[..m]) == multiset(sorted[m..]);
  }

  /** Cutting a sorted list in two: the tail is no newer than the head, and the two parts make up the list. */
  lemma SplitSorted(sorted: seq<Item>, m: nat)
    requires Desc(sorted) && m <= |sorted|
    ensures Desc(sorted[..m])
    ensures multiset(sorted) == multiset(sorted[..m]) + multiset(sorted[m..])
    ensures forall x, y :: x in multiset(sorted[m..]) && y in sorted[..m] ==> x.orden <= y.orden
  {
    var feed, rest := sorted[..m], sorted[m..];
    assert sorted == feed + rest;
    forall x: Item, y: Item | x in multiset(rest) && y in feed ensures x.orden <= y.orden {
      var i :| 0 <= i < |rest| && rest[i] == x;
      var j :| 0 <= j < |feed| && feed[j] == y;
      assert sorted[m + i] == x && sorted[j] == y;
    }
  }

  /** Filtering a prefix by key gives a prefix of the filtered list. */
  lemma WithOrdenPrefix(s: seq<Item>, m: nat, k: int)
    requires m <= |s|
    ensures WithOrden(s[..m], k) <= WithOrden(s, k)
  {
    assert s == s[..m] + s[m..];
    WithOrdenAppend(s[..m], s[m..], k);
  }

  /** Within one key, the feed keeps a prefix of the items in build order. */
  lemma LatestStable(items: seq<Item>, n: nat, k: int)
    ensures WithOrden(Latest(items, n), k) <= WithOrden(items, k)
  {
    var sorted := SortDesc(items);
    WithOrdenPrefix(sorted, if |sorted| < n then |sorted| else n, k);
    SortDescStable(items, k);
  }

  /** What the home page shows of the built items. */
  ghost predicate FeedOf(feed: seq<Item>, all: seq<Item>) {
    && |feed| == (if |all| < FeedSize then |all| else FeedSize)
    && Desc(feed)
    && TiesByRank(feed)
    && multiset(feed) <= multiset(all)
    && (|all| <= FeedSize ==> multiset(feed) == multiset(all))
    && (forall x, y :: x in multiset(all) - multiset(feed) && y in feed ==> x.orden <= y.orden)
    && (forall k :: WithOrden(feed, k) <= WithOrden(all, k))
  }

  /** A prefix of a list whose ties are in kind order has its ties in kind order. */
  lemma TiesPrefix(s: seq<Item>, m: nat)
    requires TiesByRank(s) && m <= |s|
    ensures TiesByRank(s[..m])
  {
    var p := s[..m];
    forall i, j | 0 <= i < j < |p| && p[i].orden == p[j].orden ensures Rank(p[i].tipo) <= Rank(p[j].tipo) {
      assert p[i] == s[i] && p[j] == s[j];
    }
  }

  /**
   * The twelve newest of the built items: at most twelve, newest first, a
   * sub-multiset of all items (all of them when there are at most twelve),
   * no left-out item newer than a shown one, ties in build order.
   */
  lemma LatestBuilt(notas: seq<Registro>, conciertos: seq<Registro>,
                    lanzamientos: seq<Registro>, recomendaciones: seq<Registro>)
    ensures var all := Built(notas, conciertos, lanzamientos, recomendaciones);
      FeedOf(Latest(all, FeedSize), all)
  {
    var items := Built(notas, conciertos, lanzamientos, recomendaciones);
    var feed := Latest(items, FeedSize);
    LatestTopK(items, FeedSize);
    forall k | true ensures WithOrden(feed, k) <= WithOrden(items, k) {
      LatestStable(items, FeedSize, k);
    }
    BuiltRankSorted(notas, conciertos, lanzamientos, recomendaciones);
    SortDescTies(items);
    TiesPrefix(SortDesc(items), |feed|);
  }

  /** Every shown item is tagged with its table's kind, never an artist, and keyed by its record's creation time. */
  lemma LatestBuiltTagged(notas: seq<Registro>, conciertos: seq<Registro>,
                          lanzamientos: seq<Registro>, recomendaciones: seq<Registro>)
    ensures var all := Built(notas, conciertos, lanzamientos, recomendaciones);
      forall it :: it in Latest(all, FeedSize) ==>
        && it.tipo != Artista && it.orden == it.obj.createdAt
        && (it.tipo == Nota ==> it.obj in notas)
        && (it.tipo == Concierto ==> it.obj in conciertos)
        && (it.tipo == Lanzamiento ==> it.obj in lanzamientos)
        && (it.tipo == Recomendacion ==> it.obj in recomendaciones)
  {
    var items := Built(notas, conciertos, lanzamientos, recomendaciones);
    var feed := Latest(items, FeedSize);
    LatestTopK(items, FeedSize);
    forall it | it in feed
      ensures && it.tipo != Artista && it.orden == it.obj.createdAt
              && (it.tipo == Nota ==> it.obj in notas)
              && (it.tipo == Concierto ==> it.obj in conciertos)
              && (it.tipo == Lanzamiento ==> it.obj in lanzamientos)
              && (it.tipo == Recomendacion ==> it.obj in recomendaciones)
    {
      assert it in multiset(feed);
      BuiltItemsWellTagged(notas, conciertos, lanzamientos, recomendaciones, it);
    }
  }

  /**
   * `inicio`: builds the items of the four tables and keeps the twelve
   * newest, newest first; equal creation times keep build order, so notes
   * precede concerts, releases and recommendations.
   */
  method Inicio(notas: seq<Registro>, conciertos: seq<Registro>,
                lanzamientos: seq<Registro>, recomendaciones: seq<Registro>)
    returns (feed: seq<Item>)
    ensures FeedOf(feed, Built(notas, conciertos, lanzamientos, recomendaciones))
    ensures forall it :: it in feed ==>
      && it.tipo != Artista && it.orden == it.obj.createdAt
      && (it.tipo == Nota ==> it.obj in notas)
      && (it.tipo == Concierto ==> it.obj in conciertos)
      && (it.tipo == Lanzamiento ==> it.obj in lanzamientos)
      && (it.tipo == Recomendacion ==> it.obj in recomendaciones)
  {
    var items := BuildItems(notas, conciertos, lanzamientos, recomendaciones);
    feed := Latest(items, FeedSize);
    LatestBuilt(notas, conciertos, lanzamientos, recomendaciones);
    LatestBuiltTagged(notas, conciertos, lanzamientos, recomendaciones);
  }

  /** The YouTube watch-page marker that the embed URL replaces. */
  const WatchMarker: string := "watch?v="
  const EmbedMarker: string := "embed/"

  /** Python's `s.replace(pat, rep)`: every non-overlapping occurrence, scanning left to right. */
  function ReplaceAll(s: string, pat: string, rep: string): string
    requires |pat| > 0
    decreases |s|
  {
    if StartsWith(s, pat) then rep + ReplaceAll(s[|pat|..], pat, rep)
    else if s == [] then []
    else [s[0]] + ReplaceAll(s[1..], pat, rep)
  }

  /** A string without the pattern is returned unchanged. */
  lemma {:induction false} ReplaceAllAbsent(s: string, pat: string, rep: string)
    requires |pat| > 0 && !Contains(s, pat)
    ensures ReplaceAll(s, pat, rep) == s
    decreases |s|
  {
    if s != [] {
      ReplaceAllAbsent(s[1..], pat, rep);
    }
  }

  /** A URL that starts with the watch marker is rewritten to one starting with `e`. */
  lemma RewriteStartsWithEmbed(t: string, w: string)
    requires StartsWith(t, WatchMarker) && w != []
    requires StartsWith(ReplaceAll(t, WatchMarker, EmbedMarker), w)
    ensures w[0] == 'e'
  {
    var r := ReplaceAll(t, WatchMarker, EmbedMarker);
    assert r[..|w|][0] == r[0] == EmbedMarker[0];
  }

  /** If the rewritten URL starts with an `e`-free string, so does the original. */
  lemma {:induction false} ReplacePrefixBack(t: string, w: string)
    requires forall k :: 0 <= k < |w| ==> w[k] != 'e'
    requires StartsWith(ReplaceAll(t, WatchMarker, EmbedMarker), w)
    ensures StartsWith(t, w)
    decreases |t|
  {
    var r := ReplaceAll(t, WatchMarker, EmbedMarker);
    if w == [] {
      assert t[..0] == w;
    } else if StartsWith(t, WatchMarker) {
      RewriteStartsWithEmbed(t, w);
      assert false;
    } else if t == [] {
      assert false;
    } else {
      var r' := ReplaceAll(t[1..], WatchMarker, EmbedMarker);
      assert r == [t[0]] + r';
      assert |w| <= |r| && r[..|w|] == w;
      assert StartsWith(r', w[1..]) by { assert r'[..|w| - 1] == r[1..|w|]; }
      ReplacePrefixBack(t[1..], w[1..]);
      assert t[..|w|] == [t[0]] + t[1..][..|w| - 1];
    }
  }

  /** A string none of whose characters can start `pat` adds no occurrence in front of `y`. */
  lemma {:induction false} NoStartBefore(x: string, y: string, pat: string)
    requires |pat| > 0 && forall k :: 0 <= k < |x| ==> x[k] != pat[0]
    requires !Contains(y, pat)
    ensures !Contains(x + y, pat)
    decreases |x|
  {
    if x != [] {
      assert (x + y)[1..] == x[1..] + y;
      NoStartBefore(x[1..], y, pat);
      assert !StartsWith(x + y, pat) by {
        if |pat| <= |x + y| {
          assert (x + y)[..|pat|][0] == x[0] != pat[0];
        }
      }
    } else {
      assert x + y == y;
    }
  }

  /** After the rewrite no `watch?v=` is left. */
  lemma {:induction false} ReplaceRemovesWatch(s: string)
    ensures !Contains(ReplaceAll(s, WatchMarker, EmbedMarker), WatchMarker)
    decreases |s|
  {
    var r := ReplaceAll(s, WatchMarker, EmbedMarker);
    if StartsWith(s, WatchMarker) {
      ReplaceRemovesWatch(s[|WatchMarker|..]);
      NoStartBefore(EmbedMarker, ReplaceAll(s[|WatchMarker|..], WatchMarker, EmbedMarker), WatchMarker);
    } else if s != [] {
      var r' := ReplaceAll(s[1..], WatchMarker, EmbedMarker);
      ReplaceRemovesWatch(s[1..]);
      assert r == [s[0]] + r' && r[1..] == r';
      if StartsWith(r, WatchMarker) {
        var w := WatchMarker[1..];
        assert StartsWith(r', w) by { assert r'[..|w|] == r[1..|WatchMarker|]; }
        ReplacePrefixBack(s[1..], w);
        assert false;
      }
    }
  }

  /** The embed URL of `artista_detalle`: none for an empty video URL, else the watch marker rewritten. */
  function EmbedUrl(videoYoutube: string): Option<string> {
    if videoYoutube == "" then None
    else Some(ReplaceAll(videoYoutube, WatchMarker, EmbedMarker))
  }

  /**
   * The embed URL is missing exactly for an empty video URL; otherwise no
   * `watch?v=` is left in it, and a URL without one is kept as it is.
   */
  lemma EmbedUrlRewrite(videoYoutube: string)
    ensures EmbedUrl(videoYoutube).None? <==> videoYoutube == ""
    ensures EmbedUrl(videoYoutube).Some? ==> !Contains(EmbedUrl(videoYoutube).value, WatchMarker)
    ensures EmbedUrl(videoYoutube).Some? && !Contains(videoYoutube, WatchMarker) ==>
      EmbedUrl(videoYoutube).value == videoYoutube
  {
    if videoYoutube != "" {
      ReplaceRemovesWatch(videoYoutube);
      if !Contains(videoYoutube, WatchMarker) {
        ReplaceAllAbsent(videoYoutube, WatchMarker, EmbedMarker);
      }
    }
  }

  /** A watch-page URL becomes the embed-page URL of the same video. */
  lemma EmbedUrlExample()
    ensures EmbedUrl("ab/watch?v=cd") == Some("ab/embed/cd")
  {
    var rest := "watch?v=cd";
    assert StartsWith(rest, WatchMarker);
    assert rest[|WatchMarker|..] == "cd";
    assert !StartsWith("cd", WatchMarker) && !StartsWith("d", WatchMarker);
    assert ReplaceAll("cd", WatchMarker, EmbedMarker) == "cd";
    assert ReplaceAll(rest, WatchMarker, EmbedMarker) == "embed/cd";
    assert !StartsWith("/watch?v=cd", WatchMarker) && "/watch?v=cd"[1..] == rest;
    assert ReplaceAll("/watch?v=cd", WatchMarker, EmbedMarker) == "/embed/cd";
    assert !StartsWith("b/watch?v=cd", WatchMarker) && "b/watch?v=cd"[1..] == "/watch?v=cd";
    assert ReplaceAll("b/watch?v=cd", WatchMarker, EmbedMarker) == "b/embed/cd";
    assert !StartsWith("ab/watch?v=cd", WatchMarker) && "ab/watch?v=cd"[1..] == "b/watch?v=cd";
    assert ReplaceAll("ab/watch?v=cd", WatchMarker, EmbedMarker) == "ab/embed/cd";
  }
}

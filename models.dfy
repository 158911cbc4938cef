/**
 * The blog's `NotaBlog` record and its slug assignment on save, and the
 * display label of a `Comentario`.
 */
module Models {
  import opened Wrappers
  import opened Text

  /** The fallback slug when the title slugifies to the empty string. */
  const FallbackSlug: string := "nota"

  /** The base slug: `slugify(titulo) or "nota"`. */
  function BaseSlug(slugified: string): (base: string)
    ensures base != ""
    ensures slugified != "" ==> base == slugified
  {
    if slugified == "" then FallbackSlug else slugified
  }

  /** The slug probed on the `n`-th attempt: `base` first, then `f"{base}-{n}"` for n = 2, 3, ... */
  function Candidate(base: string, n: nat): string
    requires n >= 1
  {
    if n == 1 then base else base + "-" + Decimal(n)
  }

  /** Distinct attempts probe distinct slugs. */
  lemma CandidateInjective(base: string, n: nat, m: nat)
    requires n >= 1 && m >= 1 && Candidate(base, n) == Candidate(base, m)
    ensures n == m
  {
    if n != 1 && m != 1 {
      var c := Candidate(base, n);
      assert c[|base| + 1..] == Decimal(n);
      assert Candidate(base, m)[|base| + 1..] == Decimal(m);
      DecimalInjective(n, m);
    }
  }

  /** Attempt `n` is the first whose slug is not among `existing`. */
  predicate FirstFree(base: string, existing: set<string>, n: nat) {
    n >= 1 && Candidate(base, n) !in existing &&
    forall k :: 1 <= k < n ==> Candidate(base, k) in existing
  }

  /** The slugs probed on attempts 1 .. n-1. */
  ghost function Probed(base: string, n: nat): (p: set<string>)
    requires n >= 1
    ensures forall k :: 1 <= k < n ==> Candidate(base, k) in p
  {
    if n == 1 then {} else Probed(base, n - 1) + {Candidate(base, n - 1)}
  }

  /** Attempt `n` probes a slug that no earlier attempt probed, so `n - 1` slugs were probed. */
  lemma {:induction false} ProbedFresh(base: string, n: nat)
    requires n >= 1
    ensures Candidate(base, n) !in Probed(base, n)
    ensures |Probed(base, n)| == n - 1
  {
    if n > 1 {
      ProbedFresh(base, n - 1);
      ProbedBelow(base, n - 1, n);
      if Candidate(base, n) == Candidate(base, n - 1) {
        CandidateInjective(base, n, n - 1);
      }
    }
  }

  /** Attempts before `n` never probe the slug of attempt `m >= n`. */
  lemma {:induction false} ProbedBelow(base: string, n: nat, m: nat)
    requires 1 <= n <= m
    ensures Candidate(base, m) !in Probed(base, n)
  {
    if n > 1 {
      ProbedBelow(base, n - 1, m);
      if Candidate(base, m) == Candidate(base, n - 1) {
        CandidateInjective(base, m, n - 1);
      }
    }
  }

  /**
   * The probing loop of `NotaBlog.save`: starting from `base`, try `base-2`,
   * `base-3`, ... until a slug is free. It returns the free slug and the
   * attempt `n` that found it; every earlier attempt hit an existing slug,
   * so the loop queries the store at most |existing| + 1 times.
   */
  method FindFreeSlug(base: string, existing: set<string>) returns (s: string, n: nat)
    ensures n <= |existing| + 1 && FirstFree(base, existing, n)
    ensures s == Candidate(base, n) && s !in existing
  {
    s := base;
    n := 1;
    while s in existing
      invariant n >= 1 && s == Candidate(base, n)
      invariant Probed(base, n) <= existing
      invariant forall k :: 1 <= k < n ==> Candidate(base, k) in existing
      invariant |Probed(base, n)| == n - 1 && s !in Probed(base, n)
      decreases existing - Probed(base, n)
    {
      n := n + 1;
      s := base + "-" + Decimal(n);
      ProbedFresh(base, n);
    }
    SubsetSize(Probed(base, n), existing);
  }

  lemma SubsetSize(a: set<string>, b: set<string>)
    requires a <= b
    ensures |a| <= |b|
  {
    assert b == a + (b - a);
  }

  /** A blog note; `save` fills in `slug` when it is empty. */
  class NotaBlog {
    var titulo: string
    var slug: string
    var contenido: string
    var imagenDestacada: Option<string>
    var tags: string
    var createdAt: int

    constructor (titulo: string, slug: string, contenido: string,
                 imagenDestacada: Option<string>, tags: string, createdAt: int)
      ensures this.titulo == titulo && this.slug == slug && this.contenido == contenido
      ensures this.imagenDestacada == imagenDestacada && this.tags == tags
      ensures this.createdAt == createdAt
    {
      this.titulo := titulo;
      this.slug := slug;
      this.contenido := contenido;
      this.imagenDestacada := imagenDestacada;
      this.tags := tags;
      this.createdAt := createdAt;
    }

    /**
     * The slug assignment of `save`. `existing` is the set of slugs the note
     * store holds when `save` runs and `slugify` is the framework's slug
     * function. A note that already has a slug keeps it; otherwise the note
     * gets the first free slug among `base`, `base-2`, `base-3`, ...
     */
    method Save(existing: set<string>, slugify: string -> string)
      modifies this`slug
      ensures old(slug) != "" ==> slug == old(slug)
      ensures old(slug) == "" ==> slug != "" && slug !in existing
      ensures old(slug) == "" ==>
        exists n: nat :: n <= |existing| + 1 && FirstFree(BaseSlug(slugify(titulo)), existing, n) &&
          slug == Candidate(BaseSlug(slugify(titulo)), n)
      ensures titulo == old(titulo) && contenido == old(contenido) && tags == old(tags)
      ensures imagenDestacada == old(imagenDestacada) && createdAt == old(createdAt)
    {
      if slug == "" {
        var base := BaseSlug(slugify(titulo));
        var s, n := FindFreeSlug(base, existing);
        slug := s;
        assert n <= |existing| + 1 && FirstFree(base, existing, n) && slug == Candidate(base, n);
        assert base == BaseSlug(slugify(titulo));
      }
    }
  }

  /**
   * Minimality pins the slug down: two attempts that both satisfy the
   * postcondition of `FindFreeSlug` are the same attempt.
   */
  lemma FreeSlugUnique(base: string, existing: set<string>, n: nat, m: nat)
    requires FirstFree(base, existing, n) && FirstFree(base, existing, m)
    ensures n == m
  {
  }

  /** Two notes titled alike get slugs that differ only in the numeric suffix. */
  lemma SameTitleSlugs(base: string, n: nat, m: nat)
    requires 1 <= n < m
    ensures Candidate(base, m) == base + "-" + Decimal(m)
    ensures Candidate(base, n) != Candidate(base, m)
    ensures StartsWith(Candidate(base, n), base) && StartsWith(Candidate(base, m), base)
  {
    if Candidate(base, n) == Candidate(base, m) {
      CandidateInjective(base, n, m);
    }
  }

  /**
   * Two notes saved one after the other with the same base: the second
   * save sees the first one's slug as taken, so it takes a later attempt,
   * whose slug is `base-n` and differs from the first one's.
   */
  lemma SuccessiveSaves(base: string, existing: set<string>, n1: nat, n2: nat)
    requires FirstFree(base, existing, n1)
    requires FirstFree(base, existing + {Candidate(base, n1)}, n2)
    ensures n1 < n2
    ensures Candidate(base, n2) == base + "-" + Decimal(n2)
    ensures Candidate(base, n2) != Candidate(base, n1)
  {
    SameTitleSlugs(base, n1, n2);
  }

  /** `Comentario.__str__`: the author, " - ", and the first 20 characters of the note's title. */
  function ComentarioLabel(autor: string, titulo: string): (r: string)
    ensures StartsWith(r, autor + " - ")
    ensures var rest := r[|autor| + 3..];
      |rest| == (if |titulo| < 20 then |titulo| else 20) && StartsWith(titulo, rest)
  {
    autor + " - " + titulo[..if |titulo| < 20 then |titulo| else 20]
  }
}

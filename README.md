# blogmusica: verified model of its sequential core

A Dafny model of the few pieces of real logic in a Django music blog
(notes, artists, concerts, releases, recommendations, comments):

- **Slug assignment** (`Models`): `NotaBlog.save` gives a note without a
  slug the first free one among `base`, `base-2`, `base-3`, ..., where
  `base` is the slugified title or `"nota"`. `slugify` is a parameter (an
  arbitrary string function); the store's slugs are a finite set. The
  probing loop is a method with loop invariants; the note is a class whose
  `Save` changes only `slug`.
- **Home feed** (`Feed`): `inicio` builds one item per note, concert,
  release and recommendation (four loops, kept as a method), sorts them by
  creation time newest first with a stable sort, and keeps the first 12.
  The sort is an insertion sort written as a function; its stability is
  stated per key and as "ties keep the build order of the kinds". Also the
  YouTube embed URL of `artista_detalle` (Python's `str.replace`).
- **Comment submission** (`Comments`): `agregar_comentario` over a comment
  store class; the request is a value (method, user, posted text), the
  notes are the set of stored slugs, the answer is a login redirect, a 404
  or a redirect to the note's `#comentarios` anchor.
- **Audit command** (`Audit`): collection of URL names over a resolver
  tree (a class holding the name set and the pattern list, filled by a
  recursive method), the template and Python scans for references to
  unregistered names, the ignored-directory test, and the settings check.
  Regular-expression matches and `os.walk` results are inputs.
- `Text` holds Python string semantics used throughout: `in`,
  `startswith`, `strip` (all characters `str.isspace()` accepts) and
  `str(n)` with its inverse.

Timestamps are integers (`timezone.make_naive` is not modelled). Each
table's rows come in as a sequence in the order the ORM returns them.
Although artists are one of the site's kinds of record, the code's feed
does not include them; the model follows the code and proves no feed item
is an artist.

Behaviour worth knowing, proved as stated:
- a resolver's namespace replaces the outer prefix instead of extending it,
  so nested namespaces `a` > `b` register `b:x`, not `a:b:x`
  (`Audit.NestedNamespaceReplaced`);
- the ignored-directory test looks at the whole path and `env` is part of
  `.venv` and `venv`, so any root containing `env` anywhere, for example
  `/home/ana/envios/blogmusica`, is skipped (`Audit.IgnoredRootIff`,
  `Audit.WholePathIgnored`).

## Model

| member | source | states |
|---|---|---|
| `Models.BaseSlug` | musica/models.py:37 | the base is the slugified title when non-empty, else `"nota"`; never empty |
| `Models.CandidateInjective` | musica/models.py:38-42 | different attempts probe different slugs (`base` vs `base-n`, and `base-n` vs `base-m`) |
| `Models.ProbedFresh` | musica/models.py:40-42 | attempt n probes a slug no earlier attempt probed, so exactly n-1 distinct slugs were probed before it |
| `Models.FindFreeSlug` | musica/models.py:38-43 | returns `base` or `base-n` (n >= 2) that is not taken, every earlier candidate is taken (minimal suffix), after at most (number of existing slugs + 1) probes |
| `Models.NotaBlog.Save` | musica/models.py:35-44 | a non-empty slug is kept; an empty one becomes a non-empty, unused, minimal candidate of the title's base; title, content, tags, image and creation time are unchanged |
| `Models.FreeSlugUnique` | musica/models.py:38-42 | minimality determines the attempt, so the assigned slug is a function of title and store |
| `Models.SameTitleSlugs` | musica/models.py:38-42 | two different attempts of one base give different slugs, both starting with the base, and a later attempt's slug is `base-n` |
| `Models.SuccessiveSaves` | musica/models.py:35-44 | when a second note with the same base is saved after the first, it takes a later attempt than the first, and its slug is `base-n` and differs from the first one's |
| `Models.ComentarioLabel` | musica/models.py:106-107 | the label is the author, `" - "`, then the first min(20, len) characters of the title |
| `Text.DecimalRoundTrip` | musica/models.py:42 | reading back the digits of `str(n)` gives n |
| `Text.StripSlice` | musica/views_nota.py:26 | `strip()` returns a slice of its input with only whitespace outside it and none at its ends |
| `Text.StripEmptyIffAllSpace` | musica/views_nota.py:26-27 | the stripped text is empty exactly when the input is all whitespace |
| `Text.StripIdempotent` | musica/views_nota.py:26 | stripping twice equals stripping once |
| `Feed.AppendTagged` | musica/views.py:9-14 | one loop appends one item per record, tagged with the kind and keyed by `created_at`, in table order |
| `Feed.BuildItems` | musica/views.py:7-35 | the built list is the notes', concerts', releases' and recommendations' items in that order |
| `Feed.BuiltItemsWellTagged` | musica/views.py:9-35 | every built item's `orden` is its record's `created_at`, its kind is never artist, and its record comes from the table of its kind |
| `Feed.BuiltRankSorted` | musica/views.py:9-35 | the built list is grouped by kind in build order |
| `Feed.InsertDescSorted` | musica/views.py:37 | inserting into a newest-first list keeps it sorted and adds exactly the item |
| `Feed.SortDescSortedPermutation` | musica/views.py:37 | the sort returns a permutation of its input, newest first |
| `Feed.SortDescStable` | musica/views.py:37 | for every key, the items with that key leave the sort in the order they entered (Python's sort is stable) |
| `Feed.InsertDescTies` | musica/views.py:37 | inserting an item of the latest kind so far keeps equal-time items in kind order |
| `Feed.SortDescTies` | musica/views.py:9-37 | sorting the built list puts equal-time items as note, concert, release, recommendation |
| `Feed.LatestTopK` | musica/views.py:37 | `sorted(...)[:k]` has min(k, n) items, newest first, is a sub-multiset of the input (all of it when n <= k), and no left-out item is newer than a kept one |
| `Feed.LatestStable` | musica/views.py:37 | for every key, the kept items with that key are a prefix of the input's items with that key |
| `Feed.LatestBuilt` | musica/views.py:6-37 | the feed of the built items has at most 12 items, newest first, ties in kind order, a sub-multiset (a permutation when at most 12), top-12 |
| `Feed.LatestBuiltTagged` | musica/views.py:9-37 | every feed item is never an artist, is keyed by its record's creation time, and holds a record of the table its kind names (a `Nota` item a note, and so on for concerts, releases and recommendations) |
| `Feed.Inicio` | musica/views.py:6-38 | the home page's item list has all the properties above |
| `Feed.ReplaceAllAbsent` | musica/views.py:70 | `replace` leaves a string without the pattern unchanged |
| `Feed.ReplaceRemovesWatch` | musica/views.py:70 | after replacing `watch?v=` by `embed/` no `watch?v=` remains |
| `Feed.EmbedUrlRewrite` | musica/views.py:68-70 | the embed URL is None exactly when the video URL is empty; otherwise it contains no `watch?v=`, and equals the video URL when that had none |
| `Feed.EmbedUrlExample` | musica/views.py:68-70 | the watch-page URL `ab/watch?v=cd` becomes `ab/embed/cd` |
| `Comments.NotaUrl` | musica/models.py:46-47 | the note's URL is `/nota/<slug>/`, from which the slug can be read back |
| `Comments.ComentarioStore.AgregarComentario` | musica/views_nota.py:22-29 | the store gains exactly the comments `Added` gives and the answer is `Answer` |
| `Comments.AddedIff` | musica/views_nota.py:25-28 | at most one comment is added, and one is added exactly when a logged-in user POSTs to an existing note text that is present and not all whitespace |
| `Comments.AddedComment` | musica/views_nota.py:26-28 | the added comment has the request's note and user and the posted text with its surrounding whitespace removed, non-empty |
| `Comments.AnswerCases` | musica/views_nota.py:22-29 | anonymous: login redirect, nothing added; unknown slug: 404, nothing added; otherwise a redirect to the note URL plus `#comentarios`; non-POST adds nothing |
| `Audit.Qualified` | audit_blog.py:166 | a named route is registered as prefix + name |
| `Audit.UrlCollector.CollectUrlPatterns` | audit_blog.py:159-174 | the walk only adds: the name set gains the tree's prefixed names and `patterns_info` gains its unprefixed (name, pattern) pairs |
| `Audit.NameOrigin` | audit_blog.py:163-174 | every collected name is an unprefixed name of `patterns_info` behind the starting prefix or some namespace's prefix |
| `Audit.InfoRegistered` | audit_blog.py:164-167 | every `patterns_info` name is non-empty and registered behind the starting prefix or some namespace's prefix |
| `Audit.NoNamespaceNames` | audit_blog.py:163-174 | without namespaces the name set is exactly prefix + the names of `patterns_info` |
| `Audit.NestedNamespaceReplaced` | audit_blog.py:169-174 | a namespace replaces the outer prefix: nested `a` > `b` > `x` registers only `b:x` |
| `Audit.MissingOfCounts` | audit_blog.py:89-92 | a reference is reported as many times as it occurs when its name is unregistered, and never otherwise |
| `Audit.MissingOfUnregistered` | audit_blog.py:126-129 | every report names an unregistered URL name; there are no more reports than references |
| `Audit.ScanFiles` | audit_blog.py:83-92 | the files of one directory with the suffix are counted and their unregistered references reported, in order, with path `root/file` |
| `Audit.ScanTemplates` | audit_blog.py:81-92 | the template scan reports the unregistered `{% url %}` references of every `.html` file, in walk order, and counts the files |
| `Audit.ScanPython` | audit_blog.py:112-129 | the Python scan does the same for `.py` files, skipping ignored directories |
| `Audit.IgnoredRootIff` | audit_blog.py:115 | a directory is skipped exactly when its path contains `env`, `node_modules` or `__pycache__` |
| `Audit.WholePathIgnored` | audit_blog.py:115 | a project under a directory named `envios` is skipped |
| `Audit.AllProcessorsMember` | audit_blog.py:193-195 | a context processor is in `cps` exactly when some template entry lists it |
| `Audit.AbsentAppsMember` | audit_blog.py:209-212 | an app is reported absent exactly when it is required and not installed |
| `Audit.CheckSettings` | audit_blog.py:189-228 | the settings check computes `Report` |
| `Audit.ReportMeaning` | audit_blog.py:196-226 | missing processors = required minus configured; `ok` iff none missing and every required app installed; LOGIN_URL warning iff set and not starting with `/`; language warning iff not `es`/`es-ar` |
| `Audit.BlogSettingsPass` | blogmusica/settings.py:58-63 | with the blog's settings nothing is missing, `ok` holds, LOGIN_URL is accepted, no language warning, and the UTC hint is shown |

## Left out

- Persistence: `super().save()`, the ORM queries, `get_object_or_404`, template rendering and HTTP redirects are abstracted to sets, sequences and result values.
- The read-then-write race between checking a slug and saving the note: a concurrency matter outside a sequential model.
- Models.NotaBlog.Save: does not prove the slug URL-safe, because `slugify` is an arbitrary function parameter here.
- `timezone.make_naive` and timestamp types: creation times are integers.
- Cascade deletes: enforced by the database, not by code.
- The creation time of a comment: a clock reading, not modelled.
- `login_required`'s redirect target (`LOGIN_URL?next=...`): modelled only as "redirect to login".
- The regular expressions, `os.walk`, file reads and styled output of the audit: their results are inputs. An unreadable file (an uncaught error in the template scan, a skipped file in the Python scan) is not modelled.
- The audit's other steps: the key-name printout (audit_blog.py:52-56), the template-directory and app discovery (audit_blog.py:60-76, 105-108, 176-187) and the closing recommendations (audit_blog.py:145-153).
- Path normalisation by `Path.resolve` and `Path / f`: paths are joined with `/`.
- musica/auth_views.py, musica/forms.py, musica/admin.py and the URL and settings files are configuration; only the settings values the check reads are used.
- Search filtering and image or preview heuristics do not appear in the modelled source files.

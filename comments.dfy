/**
 * Comment submission (`agregar_comentario`): a logged-in user posts text to
 * a note identified by its slug; the stripped text, when non-empty, is
 * stored as a new comment, and the user is sent back to the note's
 * comment section.
 */
module Comments {
  import opened Wrappers
  import opened Text

  /** A stored comment: the note's slug, the author's user name, the text. */
  datatype Comentario = Comentario(nota: string, autor: string, contenido: string)

  /** What the handler reads from the request: the HTTP method, the logged-in user (if any), the posted `contenido` field (if any). */
  datatype Request = Request(metodo: string, usuario: Option<string>, contenido: Option<string>)

  /** The handler's answers: the login redirect of `login_required`, a 404, or a redirect. */
  datatype Response = RedirectToLogin | NotFound | Redirect(url: string)

  const CommentsAnchor: string := "#comentarios"

  /** `NotaBlog.get_absolute_url`: the route named `nota_detail`, `nota/<slug>/`, mounted at the site root. */
  function NotaUrl(slug: string): (url: string)
    ensures |url| == |slug| + 7 && StartsWith(url, "/nota/") && url[|url| - 1] == '/'
    ensures url[6..|url| - 1] == slug
  {
    "/nota/" + slug + "/"
  }

  /** `(request.POST.get('contenido') or '').strip()` */
  function SubmittedText(req: Request): string {
    match req.contenido
    case None => Strip("")
    case Some(text) => Strip(text)
  }

  /** The comments a request adds: none, or one. */
  function Added(req: Request, slug: string, notas: set<string>): seq<Comentario> {
    if req.usuario.Some? && slug in notas && req.metodo == "POST" && SubmittedText(req) != ""
    then [Comentario(slug, req.usuario.value, SubmittedText(req))]
    else []
  }

  /** The response a request gets. */
  function Answer(req: Request, slug: string, notas: set<string>): Response {
    if req.usuario.None? then RedirectToLogin
    else if slug !in notas then NotFound
    else Redirect(NotaUrl(slug) + CommentsAnchor)
  }

  /** The comment table. */
  class ComentarioStore {
    var comentarios: seq<Comentario>

    constructor ()
      ensures comentarios == []
    {
      comentarios := [];
    }

    /**
     * `agregar_comentario(request, slug)`; `notas` is the set of slugs of
     * the stored notes.
     */
    method AgregarComentario(req: Request, slug: string, notas: set<string>) returns (resp: Response)
      modifies this
      ensures comentarios == old(comentarios) + Added(req, slug, notas)
      ensures resp == Answer(req, slug, notas)
    {
      if req.usuario.None? {
        return RedirectToLogin;
      }
      if slug !in notas {
        return NotFound;
      }
      if req.metodo == "POST" {
        var contenido := Strip(if req.contenido.Some? then req.contenido.value else "");
        if contenido != "" {
          comentarios := comentarios + [Comentario(slug, req.usuario.value, contenido)];
        }
      }
      resp := Redirect(NotaUrl(slug) + CommentsAnchor);
    }
  }

  /**
   * A comment is added exactly when a logged-in user POSTs to an existing
   * note text that is not all whitespace; at most one is added.
   */
  lemma AddedIff(req: Request, slug: string, notas: set<string>)
    ensures |Added(req, slug, notas)| <= 1
    ensures |Added(req, slug, notas)| == 1 <==>
      req.usuario.Some? && slug in notas && req.metodo == "POST" &&
      req.contenido.Some? && !AllSpace(req.contenido.value)
  {
    StripEmptyIffAllSpace("");
    if req.contenido.Some? {
      StripEmptyIffAllSpace(req.contenido.value);
    }
  }

  /**
   * The added comment belongs to the note and the user of the request and
   * holds the posted text without its surrounding whitespace.
   */
  lemma AddedComment(req: Request, slug: string, notas: set<string>, c: Comentario)
    requires c in Added(req, slug, notas)
    ensures c.nota == slug && slug in notas && req.usuario == Some(c.autor)
    ensures req.contenido.Some?
    ensures c.contenido != "" && !IsSpace(c.contenido[0]) && !IsSpace(c.contenido[|c.contenido| - 1])
    ensures exists i, j :: (0 <= i <= j <= |req.contenido.value| && c.contenido == req.contenido.value[i..j] &&
                            AllSpace(req.contenido.value[..i]) && AllSpace(req.contenido.value[j..]))
  {
    assert Strip("") == "";
    assert SubmittedText(req) != "" && c == Comentario(slug, req.usuario.value, SubmittedText(req));
    var text := req.contenido.value;
    var i, j := StripSlice(text);
    assert c.contenido == text[i..j];
  }

  /**
   * Whatever the method, text or store, a logged-in request for an existing
   * note is redirected to the note's comment section; an anonymous one is
   * sent to log in and a request for an unknown slug gets a 404, and
   * neither adds anything.
   */
  lemma AnswerCases(req: Request, slug: string, notas: set<string>)
    ensures req.usuario.None? ==> Answer(req, slug, notas) == RedirectToLogin && Added(req, slug, notas) == []
    ensures req.usuario.Some? && slug !in notas ==> Answer(req, slug, notas) == NotFound && Added(req, slug, notas) == []
    ensures req.usuario.Some? && slug in notas ==>
      Answer(req, slug, notas).Redirect? &&
      Answer(req, slug, notas).url == NotaUrl(slug) + CommentsAnchor
    ensures req.metodo != "POST" ==> Added(req, slug, notas) == []
  {
  }
}

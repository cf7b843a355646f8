/** The static file handler: the extension table and the choice of status,
    Content-Type, body and Connection header. The filesystem and Boost's
    extension extraction are parameters. */
module FileRequestHandler {
  import opened Common
  import opened Http

  /** What the filesystem says about a path. */
  datatype FileStatus = Missing | Directory | Unopenable | Opened(contents: string)

  const DefaultMimeType: string := "application/octet-stream"

  /** `mime_type`'s table, extension (with its dot) to media type. */
  const MimeTable: map<string, string> := map[
    ".html" := "text/html",
    ".htm" := "text/html",
    ".css" := "text/css",
    ".js" := "text/javascript",
    ".json" := "application/json",
    ".gif" := "image/gif",
    ".ico" := "image/vnd.microsoft.icon",
    ".jpeg" := "image/jpeg",
    ".jpg" := "image/jpeg",
    ".png" := "image/png",
    ".svg" := "image/svg+xml",
    ".webp" := "image/webp",
    ".txt" := "text/plain",
    ".xml" := "application/xml",
    ".zip" := "application/zip"
  ]

  /** `mime_type`: the table entry, or the octet-stream default. */
  function MimeType(extension: string): (t: string)
    ensures extension in MimeTable ==> t == MimeTable[extension]
    ensures extension !in MimeTable ==> t == DefaultMimeType
  {
    if extension in MimeTable then MimeTable[extension] else DefaultMimeType
  }

  /** The default is never a table value, so it marks exactly the unknown
      extensions. */
  lemma DefaultMeansUnknown(extension: string)
    ensures MimeType(extension) == DefaultMimeType <==> extension !in MimeTable
  {
    if extension in MimeTable {
      assert extension in {".html", ".htm", ".css", ".js", ".json", ".gif", ".ico", ".jpeg",
                           ".jpg", ".png", ".svg", ".webp", ".txt", ".xml", ".zip"};
    }
  }

  /** A few table rows, and the lookup is exact: no letter-case folding and
      nothing for an empty extension. */
  lemma MimeTypeExamples()
    ensures MimeType(".htm") == "text/html" && MimeType(".jpg") == "image/jpeg"
    ensures MimeType(".zip") == "application/zip" && MimeType(".ico") == "image/vnd.microsoft.icon"
    ensures MimeType("") == DefaultMimeType && MimeType(".HTML") == DefaultMimeType
    ensures MimeType("html") == DefaultMimeType
  {
  }

  /** The not-found page served for missing paths and directories; a page
      that cannot be read gives an empty body. */
  function NotFoundBody(root: string, fs: string -> FileStatus): string {
    match fs(root + "/files_to_serve/404.html")
    case Opened(contents) => contents
    case _ => ""
  }

  /** `FileRequestHandler::handle_request`. `root` is the configured root,
      `fs` the filesystem and `extensionOf` Boost's `extension()`. */
  function HandleRequest(root: string, req: Request, fs: string -> FileStatus,
                         extensionOf: string -> string): (res: Response)
    ensures res.version == 11 && res.location.None?
    ensures res.connection == Some(if req.keepAlive then "keep-alive" else "close")
    ensures var path := root + req.target;
      match fs(path)
      case Missing => res.status == 404 && res.contentType == Some("text/html")
                      && res.body == NotFoundBody(root, fs)
      case Directory => res.status == 404 && res.contentType == Some("text/html")
                        && res.body == NotFoundBody(root, fs)
      case Unopenable => res.status == 500 && res.contentType == Some("text/plain")
                         && res.body == "500 Internal Server Error"
      case Opened(contents) => res.status == 200 && res.contentType == Some(MimeType(extensionOf(path)))
                               && res.body == contents
  {
    var fullPath := root + req.target;
    var connection := if req.keepAlive then "keep-alive" else "close";
    match fs(fullPath)
    case Missing => Response(404, 11, None, Some("text/html"), Some(connection), NotFoundBody(root, fs))
    case Directory => Response(404, 11, None, Some("text/html"), Some(connection), NotFoundBody(root, fs))
    case Unopenable => Response(500, 11, None, Some("text/plain"), Some(connection), "500 Internal Server Error")
    case Opened(contents) =>
      Response(200, 11, None, Some(MimeType(extensionOf(fullPath))), Some(connection), contents)
  }

  /** The response persists exactly when the request asked to. */
  lemma KeepAliveMirrorsRequest(root: string, req: Request, fs: string -> FileStatus,
                                extensionOf: string -> string)
    ensures KeepAlive(HandleRequest(root, req, fs, extensionOf)) == req.keepAlive
  {
  }

  /** Only an opened file is served with 200; every status is one of 200,
      404 and 500. */
  lemma StatusCases(root: string, req: Request, fs: string -> FileStatus, extensionOf: string -> string)
    ensures var s := HandleRequest(root, req, fs, extensionOf).status;
      (s == 200 <==> fs(root + req.target).Opened?) && (s == 200 || s == 404 || s == 500)
  {
  }
}

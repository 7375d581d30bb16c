/** The names and fixed texts the servers share: header names
    (constant/header.go), content types (src/constant/content_type.go), the
    protocol version written on the status line and the server's name.  The
    last two are declared in files that are not part of this model: the
    version is taken to be "HTTP/1.1", and the server's name is left
    unspecified. */
module Constants {

  const ContentTypeHeader: string := "Content-Type"
  const ContentLengthHeader: string := "Content-Length"
  const DateHeader: string := "Date"
  const ServerHeader: string := "Server"
  const ConnectionHeader: string := "Connection"

  const ApplicationJson: string := "application/json"
  const TextHtml: string := "text/html"

  const HTTPVersion: string := "HTTP/1.1"

  /** The value of the `Server` header; its text is not part of this model. */
  const ServerName: string

  /** The value the servers send in the `Connection` header. */
  const ConnectionClose: string := "close"
}

/** The server port as the script passes it around. It is normally the text the
    user typed at the port prompt, but it can also be JavaScript's `undefined`
    when the script reads a field the answer object does not have. */
module Ports {

  datatype PortValue = Undefined | Defined(text: string)

  /** The port prompt's default answer. */
  const DefaultServerPort: string := "3001"

  /** The client development server's own default port, which the script
      warns about. */
  const ClientDefaultPort: string := "3000"

  /** How a template literal `${port}` renders the value. */
  function Interpolate(p: PortValue): string {
    match p
    case Undefined => "undefined"
    case Defined(text) => text
  }
}

/** The edits the script makes to generated files, as pure functions from the
    file's old contents to its new contents. Text files are read whole, split
    on newlines, edited and joined again, exactly as the script does; the
    client package manifest is an already parsed JSON object. */
module Patches {
  import opened JsArrays
  import opened JsStrings
  import opened Ports

  // ---------------------------------------------------------------------------
  // Gemfile (full mode): the authentication gems go in at the test-group anchor.

  const GemfileAnchor: string := "group :development, :test do"

  const AuthGems: seq<string> := ["gem 'omniauth'", "gem 'devise'", "gem 'devise_token_auth'"]

  /** The Gemfile text the script writes: the three gems, joined into one
      element, are spliced in at the anchor's `findIndex` result, which is -1
      when the anchor is missing. */
  function PatchGemfile(text: string): string {
    var lines := Split(text);
    Join(SpliceInsert(lines, FindIndex(lines, GemfileAnchor), [Join(AuthGems)]))
  }

  lemma AuthGemsAreLines()
    ensures AllLines(AuthGems)
  {
    assert IsLine(AuthGems[0]) && IsLine(AuthGems[1]) && IsLine(AuthGems[2]);
  }

  /** Read back line by line, the patched Gemfile is the old one with the three
      gems inserted at the splice position. */
  lemma GemfileLinesAfterPatch(text: string)
    ensures var lines := Split(text);
            var k := SpliceStart(|lines|, FindIndex(lines, GemfileAnchor));
            Split(PatchGemfile(text)) == lines[..k] + AuthGems + lines[k..]
  {
    var lines := Split(text);
    var k := SpliceStart(|lines|, FindIndex(lines, GemfileAnchor));
    assert SpliceInsert(lines, FindIndex(lines, GemfileAnchor), [Join(AuthGems)])
        == lines[..k] + [Join(AuthGems)] + lines[k..];
    AuthGemsAreLines();
    assert AllLines(lines[..k]) && AllLines(lines[k..]);
    SplitJoinSpliced(lines[..k], AuthGems, lines[k..]);
  }

  /** With the anchor first found at line `i`, the gems become lines `i` to
      `i + 2` and the anchor moves down to line `i + 3`: they sit before it,
      not after it, and the file grows by exactly three lines. */
  lemma GemsBeforeFirstAnchor(text: string, i: nat)
    requires i < |Split(text)|
    requires Split(text)[i] == GemfileAnchor
    requires GemfileAnchor !in Split(text)[..i]
    ensures var lines := Split(text);
            var out := Split(PatchGemfile(text));
            out == lines[..i] + AuthGems + lines[i..]
            && |out| == |lines| + 3
            && out[i + 3] == GemfileAnchor
  {
    var lines := Split(text);
    GemfileLinesAfterPatch(text);
    var f := FindIndex(lines, GemfileAnchor);
    assert f == i;
  }

  /** Without the anchor `findIndex` gives -1, which `splice` reads as "one
      before the end": the gems go in before the last line. */
  lemma GemsBeforeLastLineWithoutAnchor(text: string)
    requires GemfileAnchor !in Split(text)
    ensures var lines := Split(text);
            var n := |lines|;
            var out := Split(PatchGemfile(text));
            out == lines[..n - 1] + AuthGems + lines[n - 1..]
            && |out| == n + 3
            && out[n + 2] == lines[n - 1]
  {
    GemfileLinesAfterPatch(text);
  }

  // ---------------------------------------------------------------------------
  // config/environments/development.rb (full mode): the mailer host line.

  /** The mailer configuration line around the port, split where the port
      goes in. The prefix is written as three literals so that the verifier
      can see, literal by literal, that it holds no newline. */
  const MailerPrefix: string := "  config.action_mailer." + "default_url_options = " + "{ host: \"localhost: "
  const MailerSuffix: string := "\" } "

  /** The mailer configuration line, carrying the port as a template literal
      renders it. */
  function MailerLine(port: PortValue): string {
    MailerPrefix + Interpolate(port) + MailerSuffix
  }

  lemma MailerPrefixIsLine()
    ensures IsLine(MailerPrefix)
  {
    assert '\n' !in "  config.action_mailer.";
    assert '\n' !in "default_url_options = ";
    assert '\n' !in "{ host: \"localhost: ";
  }

  /** The mailer line stays a single line when the port text does. */
  lemma MailerLineIsLine(port: PortValue)
    requires IsLine(Interpolate(port))
    ensures IsLine(MailerLine(port))
  {
    MailerPrefixIsLine();
    assert IsLine(MailerSuffix);
  }

  /** The development configuration the script writes: the mailer line spliced
      in at index 1. */
  function PatchDevConfig(text: string, port: PortValue): string {
    Join(SpliceInsert(Split(text), 1, [MailerLine(port)]))
  }

  /** Read back line by line, the patched configuration is the old first line,
      then the mailer line, then every other old line in order. */
  lemma DevConfigLinesAfterPatch(text: string, port: PortValue)
    requires IsLine(Interpolate(port))
    ensures var lines := Split(text);
            var out := Split(PatchDevConfig(text, port));
            out == [lines[0], MailerLine(port)] + lines[1..]
            && |out| == |lines| + 1
  {
    var lines := Split(text);
    var m := MailerLine(port);
    assert SpliceInsert(lines, 1, [m]) == lines[..1] + [Join([m])] + lines[1..];
    MailerLineIsLine(port);
    assert AllLines(lines[..1]) && AllLines(lines[1..]);
    SplitJoinSpliced(lines[..1], [m], lines[1..]);
    assert lines[..1] + [m] + lines[1..] == [lines[0], m] + lines[1..];
  }

  // ---------------------------------------------------------------------------
  // The Devise model file (full mode): the confirmable module is dropped.

  const ConfirmableToken: string := " :confirmable,"

  /** The model source the script writes: `replace` with a string pattern, so
      only the first occurrence of the token goes. */
  function PatchModelFile(text: string): (r: string)
    ensures IndexOf(text, ConfirmableToken) == -1 ==> r == text
    ensures IndexOf(text, ConfirmableToken) != -1 ==>
              var k := IndexOf(text, ConfirmableToken);
              |r| == |text| - |ConfirmableToken| && r[..k] + ConfirmableToken + r[k..] == text
  {
    RemoveFirst(text, ConfirmableToken)
  }

  // ---------------------------------------------------------------------------
  // client/package.json (every run that settles a port): the proxy field.

  /** A parsed JSON value. Numbers are kept abstract as integers. */
  datatype Json =
    | JNull
    | JBool(b: bool)
    | JNumber(n: int)
    | JString(s: string)
    | JArray(items: seq<Json>)
    | JObject(fields: map<string, Json>)

  const ProxyKey: string := "proxy"

  /** The backend address written into the manifest: the port is the literal
      3001, not the port the user chose. */
  const ProxyUrl: string := "http://localhost:3001"

  /** The manifest the script writes back: `proxy` set or overwritten, every
      other field kept. The port argument is accepted and ignored, as in the
      script. */
  function UpdateClientPackage(manifest: map<string, Json>, port: PortValue): (r: map<string, Json>)
    ensures ProxyKey in r && r[ProxyKey] == JString(ProxyUrl)
    ensures r.Keys == manifest.Keys + {ProxyKey}
    ensures forall k :: k in manifest && k != ProxyKey ==> k in r && r[k] == manifest[k]
  {
    manifest[ProxyKey := JString(ProxyUrl)]
  }

  /** The written manifest does not depend on the negotiated port, and patching
      twice changes nothing more. */
  lemma ProxyIgnoresPort(manifest: map<string, Json>, p: PortValue, q: PortValue)
    ensures UpdateClientPackage(manifest, p) == UpdateClientPackage(manifest, q)
    ensures UpdateClientPackage(UpdateClientPackage(manifest, p), q) == UpdateClientPackage(manifest, p)
  {
  }
}

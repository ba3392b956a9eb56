/** The records a repository scan is made of (src/reposcan/types.go, src/domain/types.go). */
module ScanTypes {

  datatype Option<+T> = None | Some(value: T)

  datatype Repository = Repository(id: string, canonicalURL: string, ref: string, commitSHA: string)

  datatype Component = Component(
    id: string, purl: string, ecosystem: string, namespace: string, name: string, version: string,
    scope: string, sourcePath: string)

  datatype Profile = Profile(
    repository: Repository, ecosystems: seq<string>, components: seq<Component>, warnings: seq<string>)

  datatype PackageVersion = PackageVersion(ecosystem: string, name: string, version: string)

  datatype Affected = Affected(ecosystem: string, name: string, ranges: seq<seq<string>>)

  datatype Advisory = Advisory(id: string, aliases: seq<string>, withdrawn: string, affected: seq<Affected>)

  /** A raw JSON document, seen through the two decodings the scan applies to it: as an identity
      alone, and as an advisory.  A document that decodes as an advisory has that advisory's identity. */
  datatype Raw = Malformed(text: string) | Identified(identity: string, text: string) | Decoded(advisory: Advisory, text: string) {
    function Identity(): Option<string> {
      match this
      case Malformed(_) => None
      case Identified(id, _) => Some(id)
      case Decoded(a, _) => Some(a.id)
    }
  }

  datatype Source = Osv | Nvd | Other(name: string) {
    function Prefix(): string {
      match this
      case Osv => "osv:"
      case Nvd => "nvd:"
      case Other(name) => name + ":"
    }
  }

  datatype SourceRecord = SourceRecord(source: Source, id: string, aliases: seq<string>, withdrawn: bool, raw: Raw)

  /** Source records by key. */
  type Records = map<string, SourceRecord>

  const UNKNOWN_IMPACT := "unknown"

  datatype Group = Group(ids: seq<string>, recordKeys: seq<string>, runtimeImpact: string)

  /** Control characters: C0, DEL and C1. */
  predicate IsControl(c: char) {
    c < ' ' || '\U{7F}' <= c <= '\U{9F}'
  }

  predicate IsSpace(c: char) {
    || '\t' <= c <= '\r' || c == ' ' || c == '\U{85}' || c == '\U{A0}' || c == '\U{1680}'
    || '\U{2000}' <= c <= '\U{200A}' || c == '\U{2028}' || c == '\U{2029}' || c == '\U{202F}'
    || c == '\U{205F}' || c == '\U{3000}'
  }

  /** Text that may identify something: not empty, not padded, no control characters. */
  predicate ValidText(s: string) {
    && s != ""
    && !IsSpace(s[0]) && !IsSpace(s[|s| - 1])
    && forall i :: 0 <= i < |s| ==> !IsControl(s[i])
  }

  predicate IsDigit(c: char) {
    '0' <= c <= '9'
  }

  /** CVE-, four digits, a hyphen, at least four digits. */
  predicate IsCVE(s: string) {
    && |s| >= 13
    && s[..4] == "CVE-"
    && (forall i :: 4 <= i < 8 ==> IsDigit(s[i]))
    && s[8] == '-'
    && forall i :: 9 <= i < |s| ==> IsDigit(s[i])
  }

  lemma CVEIsValidText(s: string)
    requires IsCVE(s)
    ensures ValidText(s)
  {
  }
}

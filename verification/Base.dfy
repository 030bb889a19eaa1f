/** Values every part of the rack shares: byte strings, versions, statuses and option types. */
module Base {

  datatype Option<+T> = None | Some(value: T)

  /** Text crosses the plugin boundary as raw bytes; identities are compared byte by byte. */
  type Bytes = seq<bv8>

  /** A plugin's business version: a plain triple of 32-bit numbers, never parsed from text. */
  type Word = n: nat | n < 0x1_0000_0000
  datatype Version = Version(major: Word, minor: Word, patch: Word)
  datatype VersionRange = VersionRange(minimum: Version, maximum: Version)

  predicate VersionLess(left: Version, right: Version) {
    || left.major < right.major
    || (left.major == right.major
        && (left.minor < right.minor || (left.minor == right.minor && left.patch < right.patch)))
  }

  /** Versions are ordered as the numbers with these digits. */
  lemma VersionsAreNumbers(left: Version, right: Version)
    ensures var number := (v: Version) => (v.major as int * 0x1_0000_0000 + v.minor as int) * 0x1_0000_0000 + v.patch as int;
            VersionLess(left, right) <==> number(left) < number(right)
  {
  }

  predicate ValidRange(allowed: VersionRange) {
    !VersionLess(allowed.maximum, allowed.minimum)
  }

  predicate Accepts(allowed: VersionRange, actual: Version) {
    ValidRange(allowed) && !VersionLess(actual, allowed.minimum) && !VersionLess(allowed.maximum, actual)
  }

  /** ABI status words; a plugin may return any 32-bit number, hence `Other`. */
  datatype Status =
    | Ok | InvalidArgument | Unsupported | NotFound | Duplicate | InvalidState | Busy
    | Stale | LimitExceeded | Failed | WrongThread | Cycle | Deferred
    | Other(code: nat)

  lemma Regroup<T>(a: seq<T>, b: seq<T>, c: seq<T>)
    ensures a + b + c == a + (b + c)
  {
  }

  lemma Peel<T>(a: seq<T>, b: seq<T>)
    requires a != []
    ensures [a[0]] + a[1..] == a && [a[0]] + (a[1..] + b) == a + b
  {
  }

  /** Host-owned copy of a plugin's identity and initialization constraints. */
  datatype OrderNode = OrderNode(id: Bytes, priority: int, before: seq<Bytes>, after: seq<Bytes>)
}

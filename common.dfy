/** Small shared vocabulary: JavaScript's `undefined`/`null` as an Option, and
    `String.prototype.startsWith`. */
module Common {

  /** A value that may be `undefined` (or `null`) on the JavaScript side. */
  datatype Option<+T> = None | Some(value: T) {
    /** `x === undefined ? default : x` */
    function GetOr(default: T): T {
      match this
      case Some(v) => v
      case None => default
    }
  }

  /** `s.startsWith(prefix)` */
  predicate StartsWith(s: string, prefix: string) {
    |prefix| <= |s| && s[..|prefix|] == prefix
  }

  lemma AppendAssoc<T>(a: seq<T>, b: seq<T>, c: seq<T>)
    ensures a + (b + c) == (a + b) + c
  {
  }
}

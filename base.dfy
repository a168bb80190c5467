/** Shared vocabulary: optional values, raised errors, identifiers, and the
    "latest row wins" query every append-only log of the system is read with. */
module Base {

  datatype Option<+T> = None | Some(value: T) {
    /** `x ?? default` */
    function GetOr(default: T): T {
      if Some? then value else default
    }
  }

  /** The result of an operation that either returns a value or raises
      (`throw new Error(message)`). */
  datatype Outcome<+T> = Ok(value: T) | Err(message: string)

  /** Row identifiers and user identifiers are opaque strings. */
  type Id = string

  /** Instants, as milliseconds since the epoch. */
  type Time = int

  /** Index of the last element of `s` satisfying `p`. On a log that is only
      ever appended to, this is the row that `findFirst` returns when ordered
      by creation time, newest first. */
  function LastIndexWhere<T>(s: seq<T>, p: T -> bool): (r: Option<nat>)
    ensures r.Some? ==> r.value < |s| && p(s[r.value])
    ensures r.Some? ==> forall j :: r.value < j < |s| ==> !p(s[j])
    ensures r.None? ==> forall j :: 0 <= j < |s| ==> !p(s[j])
  {
    if |s| == 0 then None
    else if p(s[|s| - 1]) then Some(|s| - 1)
    else LastIndexWhere(s[..|s| - 1], p)
  }

  /** The last element of `s` satisfying `p`, if any. */
  function LastWhere<T>(s: seq<T>, p: T -> bool): (r: Option<T>)
    ensures r.None? <==> forall j :: 0 <= j < |s| ==> !p(s[j])
    ensures r.Some? ==> exists i :: 0 <= i < |s| && s[i] == r.value && p(s[i]) &&
                                    forall j :: i < j < |s| ==> !p(s[j])
  {
    match LastIndexWhere(s, p)
    case None => None
    case Some(i) => Some(s[i])
  }

  /** A matching element with no later match is what LastWhere returns. */
  lemma LastWhereIsLast<T>(s: seq<T>, p: T -> bool, i: nat)
    requires i < |s| && p(s[i])
    requires forall j :: i < j < |s| ==> !p(s[j])
    ensures LastWhere(s, p) == Some(s[i])
  {
    var k := LastIndexWhere(s, p);
    assert k.Some?;
  }

  /** Appending one row: it is the latest if it matches, otherwise the
      latest is what it was before. */
  lemma LastWhereAppend<T>(s: seq<T>, x: T, p: T -> bool)
    ensures LastWhere(s + [x], p) == if p(x) then Some(x) else LastWhere(s, p)
  {
    var t := s + [x];
    assert t[..|t| - 1] == s;
  }
}

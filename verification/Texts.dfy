/** Python's text helpers: split, join and sorting by code point. */
module Texts {

  predicate Less(a: string, b: string) {
    if b == "" then false
    else if a == "" then true
    else if a[0] != b[0] then a[0] < b[0]
    else Less(a[1..], b[1..])
  }

  /** `text.split(sep)` */
  function Split(s: string, sep: char): (parts: seq<string>)
    ensures parts != []
  {
    if s == "" then [""]
    else
      var rest := Split(s[1..], sep);
      if s[0] == sep then [""] + rest else [[s[0]] + rest[0]] + rest[1..]
  }

  function Join(parts: seq<string>, sep: string): string {
    if parts == [] then "" else if |parts| == 1 then parts[0] else parts[0] + sep + Join(parts[1..], sep)
  }

  function NonEmpty(parts: seq<string>): seq<string> {
    if parts == [] then [] else if parts[0] == "" then NonEmpty(parts[1..]) else [parts[0]] + NonEmpty(parts[1..])
  }

  /** Insertion into a sorted list; `distinct` drops repetitions. */
  function Insert(sorted: seq<string>, x: string, distinct: bool): seq<string> {
    if sorted == [] then [x]
    else if distinct && sorted[0] == x then sorted
    else if Less(x, sorted[0]) then [x] + sorted
    else [sorted[0]] + Insert(sorted[1..], x, distinct)
  }

  /** `sorted(parts)` */
  function Sort(parts: seq<string>): seq<string> {
    if parts == [] then [] else Insert(Sort(parts[..|parts| - 1]), parts[|parts| - 1], false)
  }

  /** `sorted(set(parts))` */
  function SortedSet(parts: seq<string>): seq<string> {
    if parts == [] then [] else Insert(SortedSet(parts[..|parts| - 1]), parts[|parts| - 1], true)
  }
}

/** The `quoted` option of the `get_names` accessors. */
module Quoting {
  import opened Wrappers
  import opened Text

  /** Whether `name` starts and ends with the same quote character (`'` or `"`). */
  predicate IsQuotedPair(name: string) {
    (StartsWith(name, "'") && EndsWith(name, "'")) || (StartsWith(name, "\"") && EndsWith(name, "\""))
  }

  /** `name[1:-1]` when `name` is wrapped in one pair of quotes (a lone quote
      character gives the empty string), `name` otherwise. */
  function Unquote(name: string): (r: string)
    ensures IsQuotedPair(name) ==> |r| == if |name| >= 2 then |name| - 2 else 0
    ensures !IsQuotedPair(name) ==> r == name
  {
    if IsQuotedPair(name) then (if |name| >= 2 then name[1..|name| - 1] else "") else name
  }

  /** A name wrapped in a pair of quotes unquotes to itself. */
  lemma UnquoteQuoted(name: string, mark: string)
    requires mark == "'" || mark == "\""
    ensures Unquote(mark + name + mark) == name
  {
    var q := mark + name + mark;
    assert StartsWith(q, mark) && EndsWith(q, mark);
    assert q[1..|q| - 1] == name;
  }

  /** `quoted=False` (or another falsy value), `quoted=True` (or another
      truthy value that is not a string), or a string used as the quote mark. */
  datatype Quoting = NotQuoted | Quoted | QuotedWith(mark: string)

  /** The quote mark put around each name, or `None` when the names are
      returned bare: `if not quoted` also holds for the empty string. */
  function Mark(q: Quoting): (r: Option<string>)
    ensures r.Some? ==> r.value != []
  {
    match q
    case NotQuoted => None
    case Quoted => Some("\"")
    case QuotedWith(m) => if m == [] then None else Some(m)
  }

  /** Each name wrapped in `mark`, in the same order. */
  function QuoteAll(names: seq<string>, mark: string): (r: seq<string>)
    ensures |r| == |names|
    ensures forall i :: 0 <= i < |names| ==> r[i] == mark + names[i] + mark
  {
    seq(|names|, i requires 0 <= i < |names| => mark + names[i] + mark)
  }

  /** The names as `get_names(quoted=q)` returns them. */
  function ApplyQuoting(names: seq<string>, q: Quoting): seq<string> {
    match Mark(q)
    case None => names
    case Some(m) => QuoteAll(names, m)
  }
}

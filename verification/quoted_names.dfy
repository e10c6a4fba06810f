/** The pre-built column lists of a model: every name wrapped in backquotes
    and the results joined with `", "`, together with a reader for that
    format. */
module QuotedNames {
  import opened Wrappers
  import opened Text

  /** `names.map(n => '`' + n + '`').join(', ')`. */
  function QuotedList(names: seq<string>): string {
    Join(seq(|names|, i requires 0 <= i < |names| => Quote(names[i])), ", ")
  }

  /** The first backquote of `s` at or after `from`, or `|s|` if there is none. */
  function CloseQuote(s: string, from: nat): (j: nat)
    requires from <= |s|
    ensures from <= j <= |s|
    ensures j < |s| ==> s[j] == '`'
    ensures forall k :: from <= k < j ==> s[k] != '`'
    decreases |s| - from
  {
    if from == |s| then |s|
    else if s[from] == '`' then from
    else CloseQuote(s, from + 1)
  }

  /** Reads a non-empty list of backquoted names separated by `", "`. */
  function ParseItems(s: string): Option<seq<string>>
    decreases |s|
  {
    if |s| == 0 || s[0] != '`' then None
    else
      var j := CloseQuote(s, 1);
      if j == |s| then None
      else
        var rest := s[j + 1..];
        if rest == "" then Some([s[1..j]])
        else if |rest| >= 2 && rest[..2] == ", " then
          match ParseItems(rest[2..])
          case None => None
          case Some(more) => Some([s[1..j]] + more)
        else None
  }

  /** Reads a quoted name list back into the names; the empty string is the
      empty list. */
  function ParseQuotedList(s: string): Option<seq<string>> {
    if s == "" then Some([]) else ParseItems(s)
  }

  predicate NoBackquotes(names: seq<string>) {
    forall n :: n in names ==> '`' !in n
  }

  lemma QuotedListCons(names: seq<string>)
    requires |names| >= 2
    ensures QuotedList(names) == Quote(names[0]) + ", " + QuotedList(names[1..])
  {
    var qs := seq(|names|, i requires 0 <= i < |names| => Quote(names[i]));
    assert qs[1..] == seq(|names| - 1, i requires 0 <= i < |names| - 1 => Quote(names[1..][i]));
  }

  lemma {:induction false} CloseQuoteSkipsName(name: string, tail: string, from: nat)
    requires '`' !in name
    requires 1 <= from <= |name| + 1
    ensures CloseQuote(Quote(name) + tail, from) == |name| + 1
    decreases |name| + 1 - from
  {
    var s := Quote(name) + tail;
    assert s[|name| + 1] == '`';
    if from <= |name| {
      assert s[from] == name[from - 1];
      CloseQuoteSkipsName(name, tail, from + 1);
    }
  }

  /** Reading one quoted name, alone or followed by a separator. */
  lemma ParseItemsStep(name: string, t: string)
    requires '`' !in name
    ensures ParseItems(Quote(name)) == Some([name])
    ensures ParseItems(Quote(name) + ", " + t) ==
      match ParseItems(t)
      case None => None
      case Some(more) => Some([name] + more)
  {
    var n := |name|;
    var s := Quote(name);
    CloseQuoteSkipsName(name, "", 1);
    assert s[1..n + 1] == name;
    assert s[n + 2..] == "";
    var u := Quote(name) + ", " + t;
    CloseQuoteSkipsName(name, ", " + t, 1);
    assert u == Quote(name) + (", " + t);
    assert u[1..n + 1] == name;
    assert u[n + 2..] == ", " + t;
    assert (", " + t)[2..] == t;
  }

  /** Reading a non-empty quoted list gives back the names it was built from. */
  lemma {:induction false} ParseItemsRoundTrip(names: seq<string>)
    requires |names| >= 1
    requires NoBackquotes(names)
    ensures ParseItems(QuotedList(names)) == Some(names)
    decreases |names|
  {
    ParseItemsStep(names[0], if |names| == 1 then "" else QuotedList(names[1..]));
    if |names| == 1 {
      assert QuotedList(names) == Quote(names[0]);
      assert names == [names[0]];
    } else {
      QuotedListCons(names);
      ParseItemsRoundTrip(names[1..]);
      assert [names[0]] + names[1..] == names;
    }
  }

  /** The quoted list determines the names: reading it back yields them. */
  lemma QuotedListRoundTrip(names: seq<string>)
    requires NoBackquotes(names)
    ensures ParseQuotedList(QuotedList(names)) == Some(names)
  {
    if |names| > 0 {
      ParseItemsRoundTrip(names);
      assert QuotedList(names) != "" by {
        if |names| == 1 {
          assert QuotedList(names) == Quote(names[0]);
        } else {
          QuotedListCons(names);
        }
      }
    }
  }
}

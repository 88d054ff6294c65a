/** The two pure helpers of the prediction form's script: the cost category
    shown under an estimate, and reading one cookie (the CSRF token) out of the
    browser's cookie string. */
module Predictor {
  import opened Wrappers

  // ---------------------------------------------------------------------------
  // Cost category

  datatype Category = Routine | Moderate | HighPriority
  {
    /** The text shown to the user. */
    function Label(): string
    {
      match this
      case Routine => "Routine Maintenance"
      case Moderate => "Moderate Maintenance Needed"
      case HighPriority => "High Priority Maintenance"
    }

    /** Urgency, lowest first. */
    function Rank(): nat
    {
      match this
      case Routine => 0
      case Moderate => 1
      case HighPriority => 2
    }
  }

  /** `getCostCategory`: above 1000 is high priority, above 500 moderate, the
      rest routine; 1000 and 500 themselves fall into the lower category. */
  function CostCategory(cost: real): (c: Category)
    ensures c == HighPriority <==> cost > 1000.0
    ensures c == Moderate <==> 500.0 < cost <= 1000.0
    ensures c == Routine <==> cost <= 500.0
  {
    if cost > 1000.0 then HighPriority
    else if cost > 500.0 then Moderate
    else Routine
  }

  /** The string `getCostCategory` returns. */
  function CostCategoryText(cost: real): (s: string)
    ensures cost > 1000.0 ==> s == "High Priority Maintenance"
    ensures 500.0 < cost <= 1000.0 ==> s == "Moderate Maintenance Needed"
    ensures cost <= 500.0 ==> s == "Routine Maintenance"
  {
    CostCategory(cost).Label()
  }

  /** A higher cost never yields a less urgent category. */
  lemma CostCategoryMonotone(a: real, b: real)
    requires a <= b
    ensures CostCategory(a).Rank() <= CostCategory(b).Rank()
  {
  }

  /** The three texts are different, so the text determines the category. */
  lemma CategoryLabelsDistinct(c: Category, d: Category)
    ensures c.Label() == d.Label() <==> c == d
  {
    if c != d {
      assert c.Label()[0] != d.Label()[0] || |c.Label()| != |d.Label()|;
    }
  }

  // ---------------------------------------------------------------------------
  // String helpers in JavaScript's terms

  /** `s.split(sep)`: the pieces between separators, in order; never empty. */
  function Split(s: string, sep: char): (parts: seq<string>)
    ensures |parts| >= 1
    ensures forall i :: 0 <= i < |parts| ==> sep !in parts[i]
  {
    if s == [] then [[]]
    else
      var rest := Split(s[1..], sep);
      if s[0] == sep then [[]] + rest
      else [[s[0]] + rest[0]] + rest[1..]
  }

  /** `parts.join(sep)`. */
  function Join(parts: seq<string>, sep: char): string
    requires |parts| >= 1
  {
    if |parts| == 1 then parts[0] else parts[0] + [sep] + Join(parts[1..], sep)
  }

  /** Splitting loses nothing: joining the pieces gives the string back. */
  lemma {:induction false} JoinSplit(s: string, sep: char)
    ensures Join(Split(s, sep), sep) == s
  {
    if s != [] {
      JoinSplit(s[1..], sep);
      var rest := Split(s[1..], sep);
      if s[0] != sep && |rest| > 1 {
        assert Split(s, sep)[1..] == rest[1..];
      }
    }
  }

  /** The characters `String.prototype.trim` strips: white space (including
      every space separator) and line terminators. */
  predicate IsSpace(c: char)
  {
    || c == '\t' || c == '\n' || c == '\U{0B}' || c == '\U{0C}' || c == '\r' || c == ' '
    || c == '\U{A0}' || c == '\U{1680}' || ('\U{2000}' <= c <= '\U{200A}')
    || c == '\U{2028}' || c == '\U{2029}' || c == '\U{202F}' || c == '\U{205F}'
    || c == '\U{3000}' || c == '\U{FEFF}'
  }

  /** How many white-space characters s starts with. */
  function Leading(s: string): (k: nat)
    ensures k <= |s|
    ensures forall i :: 0 <= i < k ==> IsSpace(s[i])
    ensures k < |s| ==> !IsSpace(s[k])
  {
    if s != [] && IsSpace(s[0]) then
      var k := Leading(s[1..]);
      assert forall i :: 1 <= i < k + 1 ==> s[i] == s[1..][i - 1];
      k + 1
    else 0
  }

  /** Where the white space that s ends with begins. */
  function TrailingFrom(s: string): (k: nat)
    ensures k <= |s|
    ensures forall i :: k <= i < |s| ==> IsSpace(s[i])
    ensures k > 0 ==> !IsSpace(s[k - 1])
  {
    if s != [] && IsSpace(s[|s| - 1]) then TrailingFrom(s[..|s| - 1]) else |s|
  }

  /** `s.trim()`: s without its leading and trailing white space; no longer
      than s, and neither starting nor ending with white space. */
  function Trim(s: string): (t: string)
    ensures |t| <= |s|
    ensures t == [] || (!IsSpace(t[0]) && !IsSpace(t[|t| - 1]))
  {
    var i := Leading(s);
    var m := TrailingFrom(s[i..]);
    assert m > 0 ==> s[i..][..m][0] == s[i];
    s[i..][..m]
  }

  /** The trimmed string is a contiguous part of s, and everything of s before
      and after it is white space. */
  lemma TrimSpec(s: string)
    ensures exists i, j :: (0 <= i <= j <= |s| && Trim(s) == s[i..j]
      && (forall k :: 0 <= k < i ==> IsSpace(s[k]))
      && (forall k :: j <= k < |s| ==> IsSpace(s[k])))
  {
    var i := Leading(s);
    var t := s[i..];
    var m := TrailingFrom(t);
    assert Trim(s) == s[i..i + m];
    assert forall k :: i + m <= k < |s| ==> s[k] == t[k - i];
  }

  /** Trimming a string with no white space at either end leaves it alone. */
  lemma TrimUnpadded(s: string)
    requires s == [] || (!IsSpace(s[0]) && !IsSpace(s[|s| - 1]))
    ensures Trim(s) == s
  {
    if s != [] {
      assert Leading(s) == 0;
      assert s[0..] == s;
    }
  }

  /** `s.substring(0, n)`: the first n characters, or all of s if it is shorter. */
  function Prefix(s: string, n: nat): string
  {
    if n <= |s| then s[..n] else s
  }

  // ---------------------------------------------------------------------------
  // getCookie

  /** Whether a trimmed entry is `name=...`: its first |name| + 1 characters
      are the name followed by '='. */
  predicate NamesCookie(entry: string, name: string)
  {
    Prefix(entry, |name| + 1) == name + "="
  }

  /** An entry names the cookie exactly when it starts with the name and the
      very next character is '='. */
  lemma NamesCookieIff(entry: string, name: string)
    ensures NamesCookie(entry, name) <==>
      |entry| > |name| && entry[..|name|] == name && entry[|name|] == '='
  {
    if |entry| > |name| && entry[..|name|] == name && entry[|name|] == '=' {
      assert entry[..|name| + 1] == entry[..|name|] + [entry[|name|]];
    }
  }

  /** The text after `name=`, decoded. */
  function ValueOf(entry: string, name: string, decode: string -> string): string
    requires NamesCookie(entry, name)
  {
    decode(entry[|name| + 1..])
  }

  /** No entry, once trimmed, names the cookie. */
  predicate NoneNamed(entries: seq<string>, name: string)
  {
    forall i :: 0 <= i < |entries| ==> !NamesCookie(Trim(entries[i]), name)
  }

  /** The decoded value of the first entry, once trimmed, that names the
      cookie; nothing exactly when no entry names it. */
  function FirstNamed(entries: seq<string>, name: string, decode: string -> string): (r: Option<string>)
    ensures r.None? <==> NoneNamed(entries, name)
  {
    if entries == [] then None
    else if NamesCookie(Trim(entries[0]), name) then Some(ValueOf(Trim(entries[0]), name, decode))
    else
      assert forall i :: 1 <= i < |entries| ==> entries[i] == entries[1..][i - 1];
      FirstNamed(entries[1..], name, decode)
  }

  /** What `getCookie(name)` returns for the cookie string `cookie`: null
      exactly when the string is empty or none of its `;`-separated entries,
      trimmed, names the cookie. */
  function CookieValue(cookie: string, name: string, decode: string -> string): (r: Option<string>)
    ensures r.None? <==> cookie == "" || NoneNamed(Split(cookie, ';'), name)
  {
    if cookie == "" then None else FirstNamed(Split(cookie, ';'), name, decode)
  }

  /** Searching from entry i: entry i's value if it names the cookie,
      otherwise the search from entry i + 1. */
  lemma FirstNamedStep(entries: seq<string>, i: nat, name: string, decode: string -> string)
    requires i < |entries|
    ensures FirstNamed(entries[i..], name, decode) ==
      if NamesCookie(Trim(entries[i]), name) then Some(ValueOf(Trim(entries[i]), name, decode))
      else FirstNamed(entries[i + 1..], name, decode)
  {
    assert entries[i..][0] == entries[i];
    assert entries[i..][1..] == entries[i + 1..];
  }

  /** When the search finds something, it is the value of the first entry
      naming the cookie; later entries of the same name are ignored. */
  lemma {:induction false} FirstNamedFirst(entries: seq<string>, name: string, decode: string -> string)
    ensures FirstNamed(entries, name, decode).Some? ==>
      exists i :: FirstMatchAt(entries, name, i)
        && FirstNamed(entries, name, decode).value == ValueOf(Trim(entries[i]), name, decode)
  {
    if entries == [] {
    } else if NamesCookie(Trim(entries[0]), name) {
      assert FirstMatchAt(entries, name, 0);
    } else {
      var rest := entries[1..];
      FirstNamedFirst(rest, name, decode);
      assert FirstNamed(entries, name, decode) == FirstNamed(rest, name, decode);
      if FirstNamed(rest, name, decode).Some? {
        var i :| FirstMatchAt(rest, name, i)
          && FirstNamed(rest, name, decode).value == ValueOf(Trim(rest[i]), name, decode);
        MatchBehindHead(entries, name, i);
      }
    }
  }

  /** Entry i is the first entry naming the cookie. */
  predicate FirstMatchAt(entries: seq<string>, name: string, i: int)
  {
    && 0 <= i < |entries|
    && NamesCookie(Trim(entries[i]), name)
    && forall j :: 0 <= j < i ==> !NamesCookie(Trim(entries[j]), name)
  }

  /** Behind a head that does not name the cookie, the first match in the
      tail is the first match overall, one place further on. */
  lemma MatchBehindHead(entries: seq<string>, name: string, i: int)
    requires entries != [] && !NamesCookie(Trim(entries[0]), name)
    requires FirstMatchAt(entries[1..], name, i)
    ensures FirstMatchAt(entries, name, i + 1)
    ensures entries[i + 1] == entries[1..][i]
  {
    assert forall j :: 1 <= j < i + 1 ==> entries[j] == entries[1..][j - 1];
  }

  /** `getCookie`: null for an empty cookie string; otherwise the decoded value
      of the first `;`-separated, trimmed entry that starts with `name=`. */
  method GetCookie(cookie: string, name: string, decode: string -> string) returns (cookieValue: Option<string>)
    ensures cookieValue == CookieValue(cookie, name, decode)
  {
    cookieValue := None;
    if cookie != "" {
      var cookies := Split(cookie, ';');
      var i := 0;
      while i < |cookies|
        invariant 0 <= i <= |cookies|
        invariant FirstNamed(cookies[i..], name, decode) == FirstNamed(cookies, name, decode)
        invariant cookieValue == None
      {
        FirstNamedStep(cookies, i, name, decode);
        var entry := Trim(cookies[i]);
        if Prefix(entry, |name| + 1) == name + "=" {
          cookieValue := Some(decode(entry[|name| + 1..]));
          break;
        }
        i := i + 1;
      }
    }
  }

  /** A string without the separator splits into itself alone. */
  lemma {:induction false} SplitWithoutSeparator(s: string, sep: char)
    requires sep !in s
    ensures Split(s, sep) == [s]
  {
    if s != [] {
      SplitWithoutSeparator(s[1..], sep);
      assert [s[0]] + s[1..] == s;
    }
  }

  /** An entry named `csrftoken2` does not answer for `csrftoken`. */
  lemma LongerNameDoesNotMatch(c: string, decode: string -> string)
    requires c == "csrftoken2=abc"
    ensures CookieValue(c, "csrftoken", decode) == None
  {
    SingleUnpaddedEntry(c);
    NamesCookieIff(c, "csrftoken");
    assert c[9] == '2';
    assert !NamesCookie(Trim(c), "csrftoken");
    var entries: seq<string> := [c];
    assert entries[1..] == [];
    assert FirstNamed(entries, "csrftoken", decode) == FirstNamed(entries[1..], "csrftoken", decode);
    assert c != "";
  }

  lemma SingleUnpaddedEntry(c: string)
    requires c == "csrftoken2=abc"
    ensures Split(c, ';') == [c] && Trim(c) == c
  {
    SplitWithoutSeparator(c, ';');
    assert !IsSpace(c[0]) && !IsSpace(c[|c| - 1]);
    TrimUnpadded(c);
  }

  /** Of two entries with the same name, the first one's value is returned;
      that entry follows a `;` and a space, so it names the cookie only once
      trimmed, while an entry with another name before it is passed over. */
  lemma FirstOfTwoEntries(c: string, decode: string -> string)
    requires c == "b=0; a=1; a=2"
    ensures CookieValue(c, "a", decode) == Some(decode("1"))
  {
    var entries := Split(c, ';');
    ThreeEntries(c);
    TrimUnpadded(entries[0]);
    NamesCookieIff(entries[0], "a");
    TrimOneLeadingSpace(entries[1]);
    var second: string := "a=1";
    assert Trim(entries[1]) == second;
    NamesCookieIff(second, "a");
    assert second[2..] == "1";
    FirstNamedStep(entries, 0, "a", decode);
    FirstNamedStep(entries, 1, "a", decode);
    assert entries[0..] == entries;
    assert c != "";
  }

  lemma ThreeEntries(c: string)
    requires c == "b=0; a=1; a=2"
    ensures |Split(c, ';')| == 3
    ensures Split(c, ';')[0] == "b=0" && Split(c, ';')[1] == " a=1"
  {
    var a, b, d := "b=0", " a=1", " a=2";
    assert c == a + [';'] + (b + [';'] + d);
    SplitAfterFirst(a, ';', b + [';'] + d);
    SplitAfterFirst(b, ';', d);
    SplitWithoutSeparator(d, ';');
  }

  /** A piece without the separator, then the separator, splits off as the
      first entry. */
  lemma {:induction false} SplitAfterFirst(a: string, sep: char, rest: string)
    requires sep !in a
    ensures Split(a + [sep] + rest, sep) == [a] + Split(rest, sep)
  {
    if a == [] {
      assert a + [sep] + rest == [sep] + rest;
      assert ([sep] + rest)[1..] == rest;
    } else {
      SplitAfterFirst(a[1..], sep, rest);
      assert (a + [sep] + rest)[1..] == a[1..] + [sep] + rest;
      assert [a[0]] + a[1..] == a;
    }
  }

  /** A single leading space is trimmed away from an otherwise unpadded string. */
  lemma TrimOneLeadingSpace(s: string)
    requires s == " a=1"
    ensures Trim(s) == s[1..]
  {
    assert Leading(s[1..]) == 0;
    assert Leading(s) == 1;
    var t := s[1..];
    assert TrailingFrom(t) == |t|;
    assert t[..|t|] == t;
  }
}

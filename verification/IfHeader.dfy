/** The WebDAV `If` header evaluator (section 10.4 of RFC 4918).

    The scanning methods are proved equal to recursive readings of the header text, and the
    readings are proved to mean what a printed list of condition lists means. */
module IfHeader {
  import opened Wrappers
  import opened Text

  datatype IfError =
    | TrailingData
    | MalformedTag
    | UnterminatedList
    | EmptyList
    | UnterminatedETag
    | UnterminatedToken
    | UnsupportedCondition

  // ---------- what a header means ----------

  datatype Atom = ETag(text: string) | StateToken(text: string)

  /** One condition with the blanks written before it and after its `Not`. */
  datatype Condition = Condition(pad: string, negated: bool, gap: string, atom: Atom)

  /** One parenthesised list with its optional resource tag and its blanks. */
  datatype CondList = CondList(pad: string, tag: Option<string>, gap: string, conditions: seq<Condition>, tail: string)

  /** An entity tag holds when it is the current one; no state token is ever held. */
  predicate AtomHolds(a: Atom, etag: string) {
    a.ETag? && TrimSpace(a.text) == etag
  }

  predicate Holds(c: Condition, etag: string) {
    AtomHolds(c.atom, etag) != c.negated
  }

  predicate AllHold(cs: seq<Condition>, etag: string) {
    forall i | 0 <= i < |cs| :: Holds(cs[i], etag)
  }

  predicate Relevant(l: CondList, path: string) {
    l.tag.Some? ==> TagMatchesPath(TrimSpace(l.tag.value), path)
  }

  /** Section 10.4.1 of RFC 4918: some list that applies to the resource has all its conditions true. */
  predicate Satisfied(ls: seq<CondList>, etag: string, path: string) {
    exists i | 0 <= i < |ls| :: Relevant(ls[i], path) && AllHold(ls[i].conditions, etag)
  }

  /** A tag names the current path directly or as an http(s) URL with that path. */
  predicate TagMatchesPath(tag: string, path: string) {
    var t, p := TrimSpace(tag), TrimSpace(path);
    t == p || (URLPath(t).Some? && URLPath(t).value == p)
  }

  /** The path of an http(s) URL: everything from the first slash after the authority. */
  function URLPath(t: string): Option<string> {
    if HasPrefix(t, "http://") || HasPrefix(t, "https://") then
      var rest := if HasPrefix(t, "http://") then t[7..] else t[8..];
      var i := IndexByte(rest, '/');
      if i < |rest| then Some(rest[i..]) else None
    else None
  }

  // ---------- printing ----------

  function PrintAtom(a: Atom): string {
    match a
    case ETag(t) => "[" + t + "]"
    case StateToken(t) => "<" + t + ">"
  }

  function PrintNegated(c: Condition): string {
    if c.negated then "Not" + c.gap + PrintAtom(c.atom) else PrintAtom(c.atom)
  }

  function PrintConditions(cs: seq<Condition>): string
    decreases |cs|, 1
  {
    if cs == [] then "" else cs[0].pad + Body(cs)
  }

  /** A condition list without the blanks before its first condition. */
  function Body(cs: seq<Condition>): string
    requires cs != []
    decreases |cs|, 0
  {
    PrintNegated(cs[0]) + PrintConditions(cs[1..])
  }

  function PrintTag(l: CondList): string {
    if l.tag.Some? then "<" + l.tag.value + ">" else ""
  }

  function PrintLists(ls: seq<CondList>): string
    decreases |ls|, 1
  {
    if ls == [] then "" else ls[0].pad + Unpadded(ls)
  }

  /** A header without the blanks before its first list. */
  function Unpadded(ls: seq<CondList>): string
    requires ls != []
    decreases |ls|, 0
  {
    var l := ls[0];
    (PrintTag(l) + l.gap) + ("(" + ((PrintConditions(l.conditions) + l.tail) + (")" + PrintLists(ls[1..]))))
  }

  predicate WellFormedCondition(c: Condition) {
    && Blank(c.pad) && Blank(c.gap)
    && (c.negated ==> c.gap != "")
    && ')' !in c.atom.text
    && (if c.atom.ETag? then ']' else '>') !in c.atom.text
  }

  predicate WellFormedList(l: CondList) {
    && Blank(l.pad) && Blank(l.gap) && Blank(l.tail)
    && l.conditions != []
    && (forall c | c in l.conditions :: WellFormedCondition(c))
    && (l.tag.None? ==> l.gap == "")
    && (l.tag.Some? ==>
          && TrimSpace(l.tag.value) != ""
          && '(' !in l.tag.value && '<' !in TrimSpace(l.tag.value) && '>' !in TrimSpace(l.tag.value))
  }

  predicate WellFormed(ls: seq<CondList>) {
    forall l | l in ls :: WellFormedList(l)
  }

  // ---------- reading the text ----------

  predicate StartsNegated(l: string) {
    HasPrefix(l, "Not") && (|l| == 3 || l[3] == ' ' || l[3] == '\t')
  }

  /** The first condition written in a trimmed text, or why there is none. */
  datatype ConditionText = BadCondition(error: IfError) | ConditionText(negated: bool, atom: Atom, rest: string)

  function ReadCondition(l: string): (r: ConditionText)
    ensures r.ConditionText? ==> |r.rest| < |l|
  {
    var negated := StartsNegated(l);
    ReadAtom(negated, if negated then TrimSpace(l[3..]) else l)
  }

  function ReadAtom(negated: bool, m: string): (r: ConditionText)
    ensures r.ConditionText? ==> |r.rest| < |m|
  {
    if HasPrefix(m, "[") then
      var end := IndexByte(m, ']');
      if end == |m| then BadCondition(UnterminatedETag) else ConditionText(negated, ETag(m[1..end]), m[end + 1..])
    else if HasPrefix(m, "<") then
      var end := IndexByte(m, '>');
      if end == |m| then BadCondition(UnterminatedToken) else ConditionText(negated, StateToken(m[1..end]), m[end + 1..])
    else BadCondition(UnsupportedCondition)
  }

  /** The value of a trimmed condition list. Conditions after a false one are not read. */
  function Conditions(l: string, etag: string): Result<bool, IfError>
    decreases |l|
  {
    if l == "" then Ok(true) else
    match ReadCondition(l)
    case BadCondition(e) => Err(e)
    case ConditionText(negated, atom, rest) =>
      if AtomHolds(atom, etag) == negated then Ok(false) else Conditions(TrimSpace(rest), etag)
  }

  function ConditionList(list: string, etag: string): Result<bool, IfError> {
    var l := TrimSpace(list);
    if l == "" then Err(EmptyList) else Conditions(l, etag)
  }

  /** The tag written before a list: `Some("")` when there is none, `None` when it is malformed. */
  function ReadTag(prefix: string): Option<string> {
    if prefix == "" then Some("")
    else if !HasPrefix(prefix, "<") || !HasSuffix(prefix, ">") then None
    else
      assert prefix[0] == '<' && prefix[|prefix| - 1] == '>';
      var tag := TrimSpace(prefix[1..|prefix| - 1]);
      if tag == "" || '<' in tag || '>' in tag then None else Some(tag)
  }

  /** The first list written in a text, or why there is none. */
  datatype ListText = NoList | BadList(error: IfError) | ListText(tag: string, body: string, rest: string)

  function ReadList(h: string): (r: ListText)
    ensures r.ListText? ==> |r.rest| < |h|
  {
    var open := IndexByte(h, '(');
    if open == |h| then
      if TrimSpace(h) != "" then BadList(TrailingData) else NoList
    else
      var tag := ReadTag(TrimSpace(h[..open]));
      var after := h[open + 1..];
      var close := IndexByte(after, ')');
      if tag.None? then BadList(MalformedTag)
      else if close == |after| then BadList(UnterminatedList)
      else ListText(tag.value, after[..close], after[close + 1..])
  }

  /** The rest of a header, given what the lists before it said. */
  function Lists(h: string, etag: string, path: string, relevant: bool, matched: bool): Result<bool, IfError>
    decreases |h|
  {
    match ReadList(h)
    case NoList => Ok(relevant && matched)
    case BadList(e) => Err(e)
    case ListText(tag, body, rest) =>
      match ConditionList(body, etag)
      case Err(e) => Err(e)
      case Ok(m) =>
        if tag != "" && !TagMatchesPath(tag, path)
        then Lists(rest, etag, path, relevant, matched)
        else Lists(rest, etag, path, true, matched || m)
  }

  function Header(header: string, etag: string, path: string): Result<bool, IfError> {
    var h := TrimSpace(header);
    if h == "" then Ok(true) else Lists(h, etag, path, false, false)
  }

  lemma {:induction false} ConditionsStep(l: string, etag: string)
    requires l != ""
    ensures var c := ReadCondition(l);
            Conditions(l, etag) == if c.BadCondition? then Err(c.error)
                                   else if AtomHolds(c.atom, etag) == c.negated then Ok(false)
                                   else Conditions(TrimSpace(c.rest), etag)
  {
    hide ReadCondition, TrimSpace;
  }

  method ConditionListMatches(input: string, etag: string) returns (r: Result<bool, IfError>)
    ensures r == ConditionList(input, etag)
  {
    hide TrimSpace, TrimLeft, TrimRight, LeadingSpace, TrailingSpace;
    var list := TrimSpace(input);
    if list == "" {
      return Err(EmptyList);
    }
    while list != ""
      invariant ConditionList(input, etag) == Conditions(list, etag)
      decreases |list|
    {
      ghost var before := list;
      ConditionsStep(list, etag);
      var negated := false;
      if HasPrefix(list, "Not") && (|list| == 3 || list[3] == ' ' || list[3] == '\t') {
        negated := true;
        list := TrimSpace(list[3..]);
      }
      var matched;
      if HasPrefix(list, "[") {
        var end := IndexByte(list, ']');
        if end == |list| {
          return Err(UnterminatedETag);
        }
        matched := TrimSpace(list[1..end]) == etag;
        list := TrimSpace(list[end + 1..]);
      } else if HasPrefix(list, "<") {
        var end := IndexByte(list, '>');
        if end == |list| {
          return Err(UnterminatedToken);
        }
        matched := false;
        list := TrimSpace(list[end + 1..]);
      } else {
        return Err(UnsupportedCondition);
      }
      if negated {
        matched := !matched;
      }
      if !matched {
        return Ok(false);
      }
      assert Conditions(before, etag) == Conditions(list, etag);
    }
    return Ok(true);
  }

  /** Reading a list from a position of the header, in terms of absolute positions. */
  lemma {:induction false} ReadListAt(h: string, pos: nat, open: nat)
    requires pos <= |h| && open == pos + IndexByte(h[pos..], '(')
    ensures open == |h| ==> ReadList(h[pos..]) == if TrimSpace(h[pos..]) != "" then BadList(TrailingData) else NoList
    ensures open < |h| ==>
              var tag := ReadTag(TrimSpace(h[pos..open]));
              var close := open + 1 + IndexByte(h[open + 1..], ')');
              ReadList(h[pos..]) == if tag.None? then BadList(MalformedTag)
                                    else if close == |h| then BadList(UnterminatedList)
                                    else ListText(tag.value, h[open + 1..close], h[close + 1..])
  {
    hide TrimSpace, ReadTag, IndexByte;
    if open < |h| {
      var t, o := h[pos..], open - pos;
      assert t[..o] == h[pos..open];
      assert t[o + 1..] == h[open + 1..];
      var after := h[open + 1..];
      var close := IndexByte(after, ')');
      assert after[..close] == h[open + 1..open + 1 + close];
      if close < |after| {
        assert after[close + 1..] == h[open + 1 + close + 1..];
      }
    }
  }

  /** One step of the reading. */
  lemma {:induction false} ListsStep(h: string, etag: string, path: string, relevant: bool, matched: bool)
    ensures var r := Lists(h, etag, path, relevant, matched);
            match ReadList(h)
            case NoList => r == Ok(relevant && matched)
            case BadList(e) => r == Err(e)
            case ListText(tag, body, rest) =>
              var c := ConditionList(body, etag);
              if c.Err? then r == Err(c.error)
              else if tag != "" && !TagMatchesPath(tag, path) then r == Lists(rest, etag, path, relevant, matched)
              else r == Lists(rest, etag, path, true, matched || c.value)
  {
    hide ReadList, ConditionList, TagMatchesPath;
  }

  lemma {:induction false} HeaderStart(input: string, etag: string, path: string)
    ensures var h := TrimSpace(input);
            Header(input, etag, path) == if h == "" then Ok(true) else Lists(h, etag, path, false, false)
  {
    hide Lists, TrimSpace;
  }

  method HeaderMatches(input: string, etag: string, path: string) returns (r: Result<bool, IfError>)
    ensures r == Header(input, etag, path)
  {
    HeaderStart(input, etag, path);
    hide TrimSpace, TagMatchesPath, ConditionList, Header, TrimLeft, TrimRight, LeadingSpace, TrailingSpace, ReadList, Lists, HasPrefix, HasSuffix, IndexByte;
    var header := TrimSpace(input);
    if header == "" {
      return Ok(true);
    }
    var anyRelevant, anyMatch := false, false;
    var pos := 0;
    assert header[0..] == header;
    while pos < |header|
      invariant 0 <= pos <= |header|
      invariant Header(input, etag, path) == Lists(header[pos..], etag, path, anyRelevant, anyMatch)
    {
      var open := IndexByte(header[pos..], '(');
      ReadListAt(header, pos, pos + open);
      ListsStep(header[pos..], etag, path, anyRelevant, anyMatch);
      if open == |header[pos..]| {
        if TrimSpace(header[pos..]) != "" {
          return Err(TrailingData);
        }
        break;
      }
      open := open + pos;
      var prefix := TrimSpace(header[pos..open]);
      var tag := "";
      if prefix != "" {
        if !HasPrefix(prefix, "<") || !HasSuffix(prefix, ">") {
          return Err(MalformedTag);
        }
        TagHasTwoEnds(prefix);
        tag := TrimSpace(prefix[1..|prefix| - 1]);
        if tag == "" || '<' in tag || '>' in tag {
          return Err(MalformedTag);
        }
      }
      assert ReadTag(prefix) == Some(tag);
      var close := IndexByte(header[open + 1..], ')');
      if close == |header[open + 1..]| {
        return Err(UnterminatedList);
      }
      close := close + open + 1;
      pos := close + 1;
      var matches := ConditionListMatches(header[open + 1..close], etag);
      if matches.Err? {
        return Err(matches.error);
      }
      if tag != "" && !TagMatchesPath(tag, path) {
        continue;
      }
      anyRelevant := true;
      if matches.value {
        anyMatch := true;
      }
    }
    ReadListAt(header, pos, pos + IndexByte(header[pos..], '('));
    ListsStep(header[pos..], etag, path, anyRelevant, anyMatch);
    if !anyRelevant {
      return Ok(false);
    }
    return Ok(anyMatch);
  }

  lemma {:induction false} TagHasTwoEnds(prefix: string)
    requires HasPrefix(prefix, "<") && HasSuffix(prefix, ">")
    ensures |prefix| >= 2
  {
    assert prefix[0] == '<' && prefix[|prefix| - 1] == '>';
  }

  // ---------- printed headers ----------

  lemma {:induction false} AtomText(a: Atom, rest: string)
    requires (if a.ETag? then ']' else '>') !in a.text
    ensures var m := PrintAtom(a) + rest;
            var end := |a.text| + 1;
            && IndexByte(m, if a.ETag? then ']' else '>') == end < |m|
            && m[1..end] == a.text && m[end + 1..] == rest
  {
    var m := PrintAtom(a) + rest;
    var close := if a.ETag? then ']' else '>';
    var front := [m[0]] + a.text;
    assert m == front + ([close] + rest);
    IndexOfFirst(front, close, rest);
    assert m[1..|front|] == a.text;
  }

  lemma {:induction false} AtomRead(negated: bool, a: Atom, rest: string)
    requires (if a.ETag? then ']' else '>') !in a.text
    ensures ReadAtom(negated, PrintAtom(a) + rest) == ConditionText(negated, a, rest)
  {
    hide IndexByte;
    AtomText(a, rest);
    var m := PrintAtom(a) + rest;
    assert m[0] == (if a.ETag? then '[' else '<') && m[..1] == [m[0]];
  }

  /** `Not` is recognised where it was printed, and the atom stands behind it. */
  lemma {:induction false} NegationRead(c: Condition, m: string)
    requires WellFormedCondition(c) && c.negated
    requires m != "" && (m[0] == '[' || m[0] == '<') && '!' <= m[|m| - 1] <= '~'
    ensures var l := "Not" + c.gap + m; StartsNegated(l) && TrimSpace(l[3..]) == m
  {
    hide TrimSpace, Trimmed;
    var l := "Not" + c.gap + m;
    assert l[..3] == "Not" && l[3] == c.gap[0] && l[3..] == c.gap + (m + "");
    VisibleEnds(m);
    TrimPadded(c.gap, m, "");
  }

  /** Reading one printed condition gives it back with the text after it. */
  lemma {:induction false} ConditionRead(c: Condition, rest: string)
    requires WellFormedCondition(c)
    requires rest == "" || rest[|rest| - 1] == ']' || rest[|rest| - 1] == '>'
    ensures ReadCondition(PrintNegated(c) + rest) == ConditionText(c.negated, c.atom, rest)
  {
    hide TrimSpace, ReadAtom;
    var m := PrintAtom(c.atom) + rest;
    AtomRead(c.negated, c.atom, rest);
    if c.negated {
      NegationRead(c, m);
      assert PrintNegated(c) + rest == "Not" + c.gap + m;
    } else {
      assert m[0] != "Not"[0];
    }
  }

  lemma {:induction false} PrintedEnds(cs: seq<Condition>)
    requires cs != []
    ensures var s := PrintConditions(cs); s != "" && (s[|s| - 1] == ']' || s[|s| - 1] == '>')
    ensures Body(cs) != "" && '!' <= Body(cs)[0] <= '~'
    ensures var b := Body(cs); b[|b| - 1] == ']' || b[|b| - 1] == '>'
  {
    var n, rest := PrintNegated(cs[0]), PrintConditions(cs[1..]);
    assert n[|n| - 1] == ']' || n[|n| - 1] == '>';
    if |cs| > 1 {
      PrintedEnds(cs[1..]);
    } else {
      assert rest == "" && n + rest == n;
    }
    var whole := PrintConditions(cs);
    assert whole == cs[0].pad + Body(cs) && Body(cs) == n + rest;
  }

  lemma {:induction false} TrimConditions(cs: seq<Condition>, tail: string)
    requires cs != [] && Blank(cs[0].pad) && Blank(tail)
    ensures TrimSpace(PrintConditions(cs) + tail) == Body(cs)
  {
    hide TrimSpace, Trimmed, Body;
    PrintedEnds(cs);
    VisibleEnds(Body(cs));
    Assoc(cs[0].pad, Body(cs), tail);
    TrimPadded(cs[0].pad, Body(cs), tail);
  }

  lemma {:induction false} ConditionsText(cs: seq<Condition>, etag: string)
    requires cs != [] && forall c | c in cs :: WellFormedCondition(c)
    ensures Conditions(Body(cs), etag) == Ok(AllHold(cs, etag))
  {
    hide TrimSpace, ReadCondition, AtomHolds, WellFormedCondition, PrintNegated;
    var rest := cs[1..];
    PrintedEnds(cs);
    ConditionsStep(Body(cs), etag);
    if rest == [] {
      ConditionRead(cs[0], "");
      BlankTrimsAway("");
      assert AllHold(cs, etag) == Holds(cs[0], etag);
    } else {
      PrintedEnds(rest);
      ConditionRead(cs[0], PrintConditions(rest));
      PadIsBlank(rest[0]);
      TrimConditions(rest, "");
      assert PrintConditions(rest) + "" == PrintConditions(rest);
      ConditionsText(rest, etag);
      assert forall i | 0 < i < |cs| :: cs[i] == rest[i - 1];
      assert AllHold(cs, etag) == (Holds(cs[0], etag) && AllHold(rest, etag));
    }
  }

  lemma {:induction false} PadIsBlank(c: Condition)
    requires WellFormedCondition(c)
    ensures Blank(c.pad)
  {
  }

  lemma {:induction false} NoCloseInside(cs: seq<Condition>)
    requires forall c | c in cs :: WellFormedCondition(c)
    ensures ')' !in PrintConditions(cs)
  {
    if cs != [] {
      NoCloseInside(cs[1..]);
      assert WellFormedCondition(cs[0]);
      assert ')' !in PrintNegated(cs[0]);
    }
  }

  lemma {:induction false} TagText(l: CondList)
    requires WellFormedList(l)
    ensures ReadTag(TrimSpace(l.pad + (PrintTag(l) + l.gap))) == Some(if l.tag.Some? then TrimSpace(l.tag.value) else "")
    ensures '(' !in l.pad + (PrintTag(l) + l.gap)
  {
    hide TrimSpace, Trimmed;
    var t := PrintTag(l);
    if l.tag.Some? {
      VisibleEnds(t);
      TrimPadded(l.pad, t, l.gap);
      assert t[1..|t| - 1] == l.tag.value;
    } else {
      BlankTrimsAway(l.pad + (t + l.gap));
    }
  }

  lemma {:induction false} PartsRead(front: string, tag: string, body: string, rest: string)
    requires '(' !in front && ')' !in body && ReadTag(TrimSpace(front)) == Some(tag)
    ensures ReadList(front + ("(" + (body + (")" + rest)))) == ListText(tag, body, rest)
  {
    hide TrimSpace, ReadTag, IndexByte;
    var inside := body + (")" + rest);
    IndexOfFirst(front, '(', inside);
    IndexOfFirst(body, ')', rest);
  }

  lemma {:induction false} FirstListRead(ls: seq<CondList>)
    requires ls != [] && WellFormedList(ls[0])
    ensures var l := ls[0];
            ReadList(PrintLists(ls)) == ListText(if l.tag.Some? then TrimSpace(l.tag.value) else "",
                                                 PrintConditions(l.conditions) + l.tail, PrintLists(ls[1..]))
  {
    var l, rest := ls[0], PrintLists(ls[1..]);
    var front, body := PrintTag(l) + l.gap, PrintConditions(l.conditions) + l.tail;
    assert PrintLists(ls) == l.pad + (front + ("(" + (body + (")" + rest))));
    hide ReadList, TrimSpace, ReadTag, PrintLists, PrintTag;
    TagText(l);
    NoCloseInside(l.conditions);
    assert ')' !in body;
    hide PrintConditions, WellFormedList;
    PartsRead(l.pad + front, if l.tag.Some? then TrimSpace(l.tag.value) else "", body, rest);
    Assoc(l.pad, front, "(" + (body + (")" + rest)));
  }

  lemma {:induction false} ListsText(ls: seq<CondList>, etag: string, path: string, relevant: bool, matched: bool)
    requires WellFormed(ls) && (matched ==> relevant)
    ensures Lists(PrintLists(ls), etag, path, relevant, matched) == Ok(matched || Satisfied(ls, etag, path))
  {
    hide Lists, ReadList, Conditions, PrintConditions, Body, PrintLists, TrimSpace, TagMatchesPath, AllHold, Satisfied;
    if ls == [] {
      EmptyText(etag, path, relevant, matched);
    } else {
      var l, rest := ls[0], ls[1..];
      FirstListRead(ls);
      assert WellFormedCondition(l.conditions[0]);
      TrimConditions(l.conditions, l.tail);
      ConditionsText(l.conditions, etag);
      PrintedEnds(l.conditions);
      ListsStep(PrintLists(ls), etag, path, relevant, matched);
      var m := AllHold(l.conditions, etag);
      var here := Relevant(l, path) && m;
      assert PrintConditions(l.conditions) + l.tail != "";
      assert ConditionList(PrintConditions(l.conditions) + l.tail, etag) == Ok(m);
      ListsText(rest, etag, path, relevant || Relevant(l, path), matched || here);
      SatisfiedSplit(ls, etag, path);
    }
  }

  lemma {:induction false} EmptyText(etag: string, path: string, relevant: bool, matched: bool)
    ensures Lists(PrintLists([]), etag, path, relevant, matched) == Ok(relevant && matched)
    ensures !Satisfied([], etag, path)
  {
    hide TrimSpace;
    BlankTrimsAway("");
  }

  lemma {:induction false} SatisfiedSplit(ls: seq<CondList>, etag: string, path: string)
    requires ls != []
    ensures Satisfied(ls, etag, path)
            == ((Relevant(ls[0], path) && AllHold(ls[0].conditions, etag)) || Satisfied(ls[1..], etag, path))
  {
    hide Relevant, AllHold;
    assert forall i | 0 < i < |ls| :: ls[i] == ls[1..][i - 1];
    if i :| 0 <= i < |ls[1..]| && Relevant(ls[1..][i], path) && AllHold(ls[1..][i].conditions, etag) {
      assert ls[i + 1] == ls[1..][i];
    }
  }

  /** Main result: the evaluator returns the meaning of every printed header, without error. */
  lemma {:induction false} HeaderMeansItsLists(ls: seq<CondList>, right: string, etag: string, path: string)
    requires ls != [] && WellFormed(ls) && Blank(right)
    ensures Header(PrintLists(ls) + right, etag, path) == Ok(Satisfied(ls, etag, path))
  {
    hide TrimSpace, Trimmed, Lists, AllHold, Relevant, Satisfied, Unpadded, Header;
    var ls' := [ls[0].(pad := "")] + ls[1..];
    assert ls'[1..] == ls[1..];
    UnpaddedIgnoresPad(ls, ls');
    UnpaddedEnds(ls);
    var h := Unpadded(ls);
    assert PrintLists(ls') == h;
    VisibleEnds(h);
    Assoc(ls[0].pad, h, right);
    TrimPadded(ls[0].pad, h, right);
    HeaderStart(PrintLists(ls) + right, etag, path);
    ListsText(ls', etag, path, false, false);
    SatisfiedSplit(ls, etag, path);
    SatisfiedSplit(ls', etag, path);
  }

  lemma {:induction false} UnpaddedIgnoresPad(ls: seq<CondList>, ls': seq<CondList>)
    requires ls != [] && ls' != [] && ls'[0] == ls[0].(pad := "") && ls'[1..] == ls[1..]
    requires WellFormed(ls)
    ensures Unpadded(ls') == Unpadded(ls) && WellFormed(ls') && Blank(ls[0].pad)
    ensures forall path :: Relevant(ls'[0], path) == Relevant(ls[0], path)
  {
    hide TrimSpace, PrintConditions, PrintLists, TagMatchesPath, WellFormedCondition;
    assert WellFormedList(ls[0]) && WellFormedList(ls'[0]);
    forall l | l in ls' ensures WellFormedList(l) {
      assert l == ls'[0] || l in ls'[1..];
    }
  }

  lemma {:induction false} UnpaddedEnds(ls: seq<CondList>)
    requires ls != [] && WellFormed(ls)
    ensures var s := Unpadded(ls); s != "" && '!' <= s[0] <= '~' && s[|s| - 1] == ')'
  {
    hide TrimSpace, PrintConditions, WellFormedCondition;
    assert WellFormedList(ls[0]);
    if |ls| > 1 {
      UnpaddedEnds(ls[1..]);
    }
  }

  // ---------- tags that govern the lists after them ----------

  /** The tag that RFC 4918 applies to a list: its own, or the last one before it. */
  function GoverningTag(ls: seq<CondList>, i: nat): Option<string>
    requires i < |ls|
  {
    if ls[i].tag.Some? || i == 0 then ls[i].tag else GoverningTag(ls, i - 1)
  }

  predicate Governs(ls: seq<CondList>, i: nat, path: string)
    requires i < |ls|
  {
    GoverningTag(ls, i).Some? ==> TagMatchesPath(TrimSpace(GoverningTag(ls, i).value), path)
  }

  /** Section 10.4.1 of RFC 4918 with tags that govern the lists after them. */
  predicate SatisfiedAsGoverned(ls: seq<CondList>, etag: string, path: string) {
    exists i: nat | i < |ls| :: Governs(ls, i, path) && AllHold(ls[i].conditions, etag)
  }

  /** A list without a tag after a tag for another resource: the code takes it for one about this resource. */
  predicate Stray(ls: seq<CondList>, i: nat, path: string)
    requires i < |ls|
  {
    ls[i].tag.None? && !Governs(ls, i, path)
  }

  lemma {:induction false} RelevantIff(ls: seq<CondList>, i: nat, path: string)
    requires i < |ls|
    ensures Relevant(ls[i], path) <==> Governs(ls, i, path) || Stray(ls, i, path)
  {
    hide TagMatchesPath, TrimSpace;
  }

  /** Main result, exact: the evaluator agrees with RFC 4918's reading of a printed header if and only if that
      reading is true, or no stray list has all its conditions true. It never refuses what that reading accepts. */
  lemma {:induction false} TagsGovernIff(ls: seq<CondList>, right: string, etag: string, path: string)
    requires ls != [] && WellFormed(ls) && Blank(right)
    ensures Header(PrintLists(ls) + right, etag, path) == Ok(SatisfiedAsGoverned(ls, etag, path))
       <==> SatisfiedAsGoverned(ls, etag, path) || forall i: nat | i < |ls| && Stray(ls, i, path) :: !AllHold(ls[i].conditions, etag)
    ensures SatisfiedAsGoverned(ls, etag, path) ==> Header(PrintLists(ls) + right, etag, path) == Ok(true)
  {
    hide Header, PrintLists, AllHold, Relevant, Governs, Stray, WellFormed;
    HeaderMeansItsLists(ls, right, etag, path);
    forall i: nat | i < |ls| ensures Relevant(ls[i], path) <==> Governs(ls, i, path) || Stray(ls, i, path) {
      RelevantIff(ls, i, path);
    }
  }

  /** On `/b`, a list about `/a` and a list after it: the second holds, and the code takes it for one about `/b`. */
  lemma {:induction false} StrayListIsTaken()
    ensures var first := CondList("", Some("/a"), "", [Condition("", false, "", ETag("x"))], "");
            var second := CondList("", None, "", [Condition("", false, "", ETag("y"))], "");
            && Header(PrintLists([first, second]) + "", "y", "/b") == Ok(true) && !SatisfiedAsGoverned([first, second], "y", "/b")
  {
    var first := CondList("", Some("/a"), "", [Condition("", false, "", ETag("x"))], "");
    var second := CondList("", None, "", [Condition("", false, "", ETag("y"))], "");
    var ls := [first, second];
    ShortTexts();
    hide TrimSpace;
    assert WellFormedList(first) && WellFormedList(second);
    assert !TagMatchesPath("/a", "/b") by { assert "/a"[1] != "/b"[1]; }
    assert AllHold(second.conditions, "y") && !Governs(ls, 1, "/b") && !Governs(ls, 0, "/b");
    hide Header, PrintLists, AllHold, WellFormedList, Governs;
    TagsGovernIff(ls, "", "y", "/b");
    assert Stray(ls, 1, "/b");
    HeaderMeansItsLists(ls, "", "y", "/b");
  }

  lemma {:induction false} ShortTexts()
    ensures TrimSpace("/a") == "/a" && TrimSpace("/b") == "/b" && TrimSpace("y") == "y"
  {
    VisibleEnds("/a");
    VisibleEnds("/b");
    VisibleEnds("y");
    TrimmedIsFixed("/a");
    TrimmedIsFixed("/b");
    TrimmedIsFixed("y");
  }
}

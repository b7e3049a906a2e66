// The key=value scanner of a request: query, form body and cookies.

module Params {
  import opened Common
  import opened Url

  datatype Pair = Pair(key: text, value: text)

  /** A map ordered by CaseInsensitiveLess: one entry per key up to case, found
      under the folded key and holding the key as it was first given. */
  type ParamMap = map<text, Pair>

  const EQUALS: byte := 0x3D
  const AMPERSAND: byte := 0x26
  const SEMICOLON: byte := 0x3B

  function Lower(c: byte): byte {
    if 0x41 <= c <= 0x5A then c + 32 else c
  }

  /** What strcasecmp compares: the characters before the first NUL, in lower
      case. */
  function Fold(s: text): text {
    if s == [] || s[0] == 0 then [] else [Lower(s[0])] + Fold(s[1..])
  }

  /** std::map::insert keeps the entry that is there. */
  function Insert(m: ParamMap, p: Pair): ParamMap {
    if Fold(p.key) in m then m else m[Fold(p.key) := p]
  }

  function InsertAll(m: ParamMap, ps: seq<Pair>): ParamMap
    decreases |ps|
  {
    if ps == [] then m else InsertAll(Insert(m, ps[0]), ps[1..])
  }

  /** Where `c` first occurs at or after `from`; the length when it does not. */
  function Find(s: text, c: byte, from: nat): (r: nat)
    requires from <= |s|
    ensures from <= r <= |s| && (r < |s| ==> s[r] == c)
    decreases |s| - from
  {
    if from == |s| || s[from] == c then from else Find(s, c, from + 1)
  }

  lemma {:induction false} FindUnique(s: text, c: byte, from: nat, i: nat)
    requires from <= i <= |s| && (forall k :: from <= k < i ==> s[k] != c) && (i < |s| ==> s[i] == c)
    ensures Find(s, c, from) == i
    decreases |s| - from
  {
    if from < i {
      FindUnique(s, c, from + 1, i);
    }
  }

  predicate Blank(c: byte) {
    c == 0x20 || c == 0x09 || c == 0x0D || c == 0x0A
  }

  function Trim(s: text): text {
    if s != [] && Blank(s[0]) then Trim(s[1..])
    else if s != [] && Blank(s[|s| - 1]) then Trim(s[..|s| - 1])
    else s
  }

  function Key(raw: text, trim: bool): text {
    if trim then Trim(raw) else raw
  }

  /** The pairs a text spells from `pos` on. */
  function Pairs(s: text, pos: nat, flag: byte, trim: bool): seq<Pair>
    requires pos <= |s| && flag != EQUALS
    decreases |s| - pos
  {
    var key := Find(s, EQUALS, pos);
    if key == |s| then [] else
      var end := Find(s, flag, key);
      [Item(s, pos, key, end, trim)] + if end == |s| then [] else Pairs(s, end + 1, flag, trim)
  }

  /** The key before the `=` and the value behind it. */
  function Item(s: text, pos: nat, key: nat, end: nat, trim: bool): Pair
    requires pos <= key < end <= |s|
  {
    Pair(Key(s[pos..key], trim), Decode(s[key + 1..end], true))
  }

  /** The scanning loop; `pos` only grows. */
  method ParseParams(str: text, m: ParamMap, flag: byte, trim: bool) returns (r: ParamMap)
    requires flag != EQUALS
    ensures r == InsertAll(m, Pairs(str, 0, flag, trim))
  {
    hide Find, Decode, Trim, Pairs;
    r := m;
    var pos := 0;
    while true
      invariant 0 <= pos <= |str|
      invariant InsertAll(r, Pairs(str, pos, flag, trim)) == InsertAll(m, Pairs(str, 0, flag, trim))
      decreases |str| - pos
    {
      var last := pos;
      PairsUnfold(str, pos, flag, trim);
      pos := Find(str, EQUALS, pos);
      if pos == |str| {
        break;
      }
      var key := pos;
      pos := Find(str, flag, pos);
      var value := UrlDecode(str[key + 1..pos], true);
      r := Insert(r, Pair(Key(str[last..key], trim), value));
      if pos == |str| {
        break;
      }
      pos := pos + 1;
    }
  }

  // ------------------------------------------------------------- round trip

  /** The text of a list of pairs: encoded values, joined by the flag. */
  function Print(ps: seq<Pair>, flag: byte, plus: bool): text {
    if ps == [] then []
    else
      ps[0].key + [EQUALS] + Encode(ps[0].value, plus) +
      if |ps| == 1 then [] else [flag] + Print(ps[1..], flag, plus)
  }

  function Trimmed(ps: seq<Pair>, trim: bool): seq<Pair> {
    if ps == [] then [] else [Pair(Key(ps[0].key, trim), ps[0].value)] + Trimmed(ps[1..], trim)
  }

  predicate KeyFree(s: text) {
    EQUALS !in s
  }

  predicate KeysFree(ps: seq<Pair>) {
    forall p :: p in ps ==> KeyFree(p.key)
  }

  /** What follows an item. */
  function Tail(rest: seq<Pair>, flag: byte, plus: bool): text {
    if rest == [] then [] else [flag] + Print(rest, flag, plus)
  }

  /** Scanning what was printed gives the pairs back, as long as no key holds an
      equals sign and the flag is a character the encoder escapes. */
  lemma {:induction false} PairsOfPrint(s: text, pos: nat, ps: seq<Pair>, flag: byte, trim: bool, plus: bool)
    requires KeysFree(ps) && !Safe(flag) && flag != EQUALS && pos <= |s| && s[pos..] == Print(ps, flag, plus)
    ensures Pairs(s, pos, flag, trim) == Trimmed(ps, trim)
    decreases |ps|
  {
    hide Encode, Decode, Trim, Pairs, Safe, AllSafe, KeyFree, Print, Find;
    if ps == [] {
      PairsOfNothing(s, pos, flag, trim, plus);
    } else {
      var p, rest := ps[0], ps[1..];
      assert p in ps && forall q :: q in rest ==> q in ps;
      EncodedIsSafe(p.value, plus);
      RoundTripDecode(p.value, plus);
      var end := PrintedItem(s, pos, ps, flag, plus);
      ScanItem(s, pos, pos + |p.key|, end, flag, trim);
      if rest != [] {
        PairsOfPrint(s, end + 1, rest, flag, trim, plus);
      }
    }
  }

  lemma PairsOfNothing(s: text, pos: nat, flag: byte, trim: bool, plus: bool)
    requires flag != EQUALS && pos <= |s| && s[pos..] == Print([], flag, plus)
    ensures Pairs(s, pos, flag, trim) == []
  {
  }

  /** Where the parts of the first printed item are. */
  lemma PrintedItem(s: text, pos: nat, ps: seq<Pair>, flag: byte, plus: bool) returns (end: nat)
    requires ps != [] && pos <= |s| && s[pos..] == Print(ps, flag, plus)
    ensures var i := pos + |ps[0].key|;
            i < end <= |s| && s[pos..i] == ps[0].key && s[i] == EQUALS &&
            s[i + 1..end] == Encode(ps[0].value, plus) && (ps[1..] == [] <==> end == |s|)
    ensures end < |s| ==> s[end] == flag && s[end + 1..] == Print(ps[1..], flag, plus)
  {
    hide Encode, Print, Tail;
    var key, e, rest := ps[0].key, Encode(ps[0].value, plus), Tail(ps[1..], flag, plus);
    end := pos + |key| + 1 + |e|;
    PrintCons(ps, flag, plus);
    TailParts(ps[1..], flag, plus);
    ItemLayout(s[pos..], key, e, rest);
    ItemMoved(s, pos, |key|, |key| + 1 + |e|);
    if rest != [] {
      assert s[end + 1..] == rest[1..];
    }
  }

  lemma TailParts(rest: seq<Pair>, flag: byte, plus: bool)
    ensures var t := Tail(rest, flag, plus);
            (t == [] <==> rest == []) && (rest != [] ==> t[0] == flag && t[1..] == Print(rest, flag, plus))
  {
  }

  /** Slices of the text from `pos` on, as slices of the text. */
  lemma ItemMoved(s: text, pos: nat, k: nat, end: nat)
    requires pos <= |s| && k < end <= |s[pos..]|
    ensures s[pos..pos + k] == s[pos..][..k] && s[pos + k] == s[pos..][k]
    ensures s[pos + k + 1..pos + end] == s[pos..][k + 1..end] && s[pos + end..] == s[pos..][end..]
  {
  }

  lemma PrintCons(ps: seq<Pair>, flag: byte, plus: bool)
    requires ps != []
    ensures Print(ps, flag, plus) ==
      ps[0].key + [EQUALS] + Encode(ps[0].value, plus) + Tail(ps[1..], flag, plus)
  {
    hide Encode;
    if |ps| == 1 {
      assert ps[1..] == [];
    }
  }

  lemma RoundTripDecode(s: text, plus: bool)
    ensures Decode(Encode(s, plus), true) == s
  {
    EncodeDecode(s, plus, true);
  }

  /** Scanning one item and what follows it. */
  lemma ScanItem(s: text, pos: nat, i: nat, end: nat, flag: byte, trim: bool)
    requires pos <= i < end <= |s| && s[i] == EQUALS && KeyFree(s[pos..i])
    requires AllSafe(s[i + 1..end]) && !Safe(flag) && (end < |s| ==> s[end] == flag)
    ensures flag != EQUALS &&
      Pairs(s, pos, flag, trim) ==
        [Pair(Key(s[pos..i], trim), Decode(s[i + 1..end], true))] +
        if end == |s| then [] else Pairs(s, end + 1, flag, trim)
  {
    hide Decode, Trim, Find, Pairs, AllSafe, KeyFree;
    ItemFinds(s, pos, i, end, flag);
    PairsUnfold(s, pos, flag, trim);
  }

  lemma ItemLayout(s: text, key: text, e: text, tail: text)
    requires s == key + [EQUALS] + e + tail
    ensures var end := |key| + 1 + |e|;
            end <= |s| && s[..|key|] == key && s[|key|] == EQUALS &&
            s[|key| + 1..end] == e && s[end..] == tail
  {
  }

  lemma ItemFinds(s: text, pos: nat, i: nat, end: nat, flag: byte)
    requires pos <= i < end <= |s| && s[i] == EQUALS && KeyFree(s[pos..i])
    requires AllSafe(s[i + 1..end]) && !Safe(flag) && (end < |s| ==> s[end] == flag)
    ensures Find(s, EQUALS, pos) == i && Find(s, flag, i) == end
  {
    hide Find;
    forall k | pos <= k < i
      ensures s[k] != EQUALS
    {
      assert s[pos..i][k - pos] == s[k];
    }
    forall k | i <= k < end
      ensures s[k] != flag
    {
      if k > i {
        assert s[i + 1..end][k - i - 1] == s[k];
      }
    }
    FindUnique(s, EQUALS, pos, i);
    FindUnique(s, flag, i, end);
  }

  lemma PairsUnfold(s: text, pos: nat, flag: byte, trim: bool)
    requires pos <= |s| && flag != EQUALS
    ensures var key := Find(s, EQUALS, pos);
            if key == |s| then Pairs(s, pos, flag, trim) == []
            else
              var end := Find(s, flag, key);
              key < end &&
              Pairs(s, pos, flag, trim) ==
                [Item(s, pos, key, end, trim)] + if end == |s| then [] else Pairs(s, end + 1, flag, trim)
  {
    hide Find, Item;
  }

  /** Any text: the first equals sign ends the key, the first flag behind it ends the
      value, and the scan goes on behind that; without an equals sign there is no
      more. */
  lemma ScanAny(s: text, pos: nat, i: nat, end: nat, flag: byte, trim: bool)
    requires pos <= i <= |s| && flag != '=' as int && (forall k :: pos <= k < i ==> s[k] != '=' as int)
    requires i < |s| ==> s[i] == '=' as int && i < end <= |s|
    requires i < |s| ==> (forall k :: i <= k < end ==> s[k] != flag) && (end < |s| ==> s[end] == flag)
    ensures Pairs(s, pos, flag, trim) ==
              if i == |s| then []
              else [Pair(if trim then Trim(s[pos..i]) else s[pos..i], Decode(s[i + 1..end], true))] +
                   if end == |s| then [] else Pairs(s, end + 1, flag, trim)
  {
    hide Find, Decode, Trim, Pairs;
    PairsUnfold(s, pos, flag, trim);
    FindUnique(s, EQUALS, pos, i);
    if i < |s| {
      FindUnique(s, flag, i, end);
    }
  }

  // ---------------------------------------------------------------- lookup

  /** The first pair with a given key, up to case. */
  function FirstWith(ps: seq<Pair>, k: text): Option<Pair> {
    if ps == [] then None
    else if Fold(ps[0].key) == Fold(k) then Some(ps[0])
    else FirstWith(ps[1..], k)
  }

  function Lookup(m: ParamMap, k: text): Option<Pair> {
    if Fold(k) in m then Some(m[Fold(k)]) else None
  }

  /** What was there wins over what is scanned, and an earlier pair over a later
      one. */
  lemma {:induction false} InsertAllLookup(m: ParamMap, ps: seq<Pair>, k: text)
    ensures Lookup(InsertAll(m, ps), k) ==
      if Lookup(m, k).Some? then Lookup(m, k) else FirstWith(ps, k)
    decreases |ps|
  {
    if ps != [] {
      InsertAllLookup(Insert(m, ps[0]), ps[1..], k);
    }
  }

  /** Printing pairs and scanning them again gives, under every key, the first
      pair printed with that key. */
  lemma ScanLookup(ps: seq<Pair>, plus: bool, k: text)
    requires KeysFree(ps)
    ensures Lookup(InsertAll(map[], Pairs(Print(ps, AMPERSAND, plus), 0, AMPERSAND, false)), k) == FirstWith(ps, k)
  {
    PairsOfPrint(Print(ps, AMPERSAND, plus), 0, ps, AMPERSAND, false, plus);
    TrimmedNot(ps);
    InsertAllLookup(map[], ps, k);
  }

  lemma {:induction false} TrimmedNot(ps: seq<Pair>)
    ensures Trimmed(ps, false) == ps
  {
    if ps != [] {
      TrimmedNot(ps[1..]);
    }
  }

  // ------------------------------------------------------- which keys are the same

  /** The same letter in either case, or the same character. */
  predicate SameLetter(c: byte, d: byte) {
    || c == d
    || ('A' as int <= c <= 'Z' as int && d == c + 32)
    || ('A' as int <= d <= 'Z' as int && c == d + 32)
  }

  predicate SameWord(a: text, b: text) {
    |a| == |b| && forall i :: 0 <= i < |a| ==> SameLetter(a[i], b[i])
  }

  /** A key up to its first NUL. */
  function CString(s: text): (r: text)
    ensures 0 !in r && r <= s && (|r| < |s| ==> s[|r|] == 0)
  {
    if s == [] || s[0] == 0 then [] else [s[0]] + CString(s[1..])
  }

  lemma LowerSame(c: byte, d: byte)
    ensures Lower(c) == Lower(d) <==> SameLetter(c, d)
  {
  }

  lemma {:induction false} FoldIs(s: text)
    ensures |Fold(s)| == |CString(s)| && forall i :: 0 <= i < |Fold(s)| ==> Fold(s)[i] == Lower(CString(s)[i])
  {
    if s != [] && s[0] != 0 {
      FoldIs(s[1..]);
    }
  }

  /** Two keys are one exactly when, up to the first NUL of each, they are the same
      word up to the case of letters. */
  lemma FoldSame(a: text, b: text)
    ensures Fold(a) == Fold(b) <==> SameWord(CString(a), CString(b))
  {
    hide Lower, Fold, CString, SameLetter;
    FoldIs(a);
    FoldIs(b);
    forall i | 0 <= i < |Fold(a)| && i < |Fold(b)|
      ensures Fold(a)[i] == Fold(b)[i] <==> SameLetter(CString(a)[i], CString(b)[i])
    {
      LowerSame(CString(a)[i], CString(b)[i]);
    }
  }

  predicate AllBlank(s: text) {
    forall c :: c in s ==> c == ' ' as int || c == '\t' as int || c == '\r' as int || c == '\n' as int
  }

  predicate Edge(c: byte) {
    c != ' ' as int && c != '\t' as int && c != '\r' as int && c != '\n' as int
  }

  /** Trimming takes the blanks off both ends and nothing else. */
  lemma {:induction false} TrimMeans(s: text) returns (before: text, after: text)
    ensures s == before + Trim(s) + after && AllBlank(before) && AllBlank(after)
    ensures Trim(s) != [] ==> Edge(Trim(s)[0]) && Edge(Trim(s)[|Trim(s)| - 1])
    decreases |s|
  {
    before, after := [], [];
    if s != [] && Blank(s[0]) {
      before, after := TrimMeans(s[1..]);
      before := [s[0]] + before;
    } else if s != [] && Blank(s[|s| - 1]) {
      before, after := TrimMeans(s[..|s| - 1]);
      after := after + [s[|s| - 1]];
    }
  }

  predicate StandsAt(s: text, i: nat, needle: text) {
    i + |needle| <= |s| && s[i..i + |needle|] == needle
  }

  ghost predicate Somewhere(s: text, needle: text) {
    exists i: nat :: StandsAt(s, i, needle)
  }

  lemma {:induction false} ContainsMeans(s: text, needle: text)
    ensures Contains(s, needle) <==> Somewhere(s, needle)
  {
    hide Contains;
    ContainsStep(s, needle);
    if s != [] {
      ContainsMeans(s[1..], needle);
      if i: nat :| StandsAt(s[1..], i, needle) {
        StandsLater(s, i + 1, needle);
      }
      if i: nat :| i > 0 && StandsAt(s, i, needle) {
        StandsLater(s, i, needle);
      }
    }
    StandsFirst(s, needle);
  }

  lemma ContainsStep(s: text, needle: text)
    ensures Contains(s, needle) <==> |needle| <= |s| && (StandsAt(s, 0, needle) || (s != [] && Contains(s[1..], needle)))
    ensures s != [] && Contains(s[1..], needle) ==> |needle| <= |s|
  {
    if |needle| <= |s| {
      StandsFirst(s, needle);
    }
  }

  lemma StandsFirst(s: text, needle: text)
    ensures StandsAt(s, 0, needle) <==> needle <= s
  {
  }

  lemma StandsLater(s: text, i: nat, needle: text)
    requires s != [] && i > 0
    ensures StandsAt(s, i, needle) <==> StandsAt(s[1..], i - 1, needle)
  {
    if i + |needle| <= |s| {
      assert s[i..i + |needle|] == s[1..][i - 1..i - 1 + |needle|];
    }
  }

  // --------------------------------------------------------------- request

  function Ascii(s: string): text {
    seq(|s|, i requires 0 <= i < |s| => s[i] as int % 256)
  }

  predicate Contains(s: text, needle: text) {
    |needle| <= |s| && (needle <= s || (s != [] && Contains(s[1..], needle)))
  }

  const FORM := Ascii("application/x-www-form-urlencode")

  class HttpRequest {
    var query: text
    var body: text
    var headers: ParamMap
    var params: ParamMap
    var cookies: ParamMap
    var parseParamFlag: bv8

    constructor (query: text, body: text, headers: ParamMap)
      ensures this.query == query && this.body == body && this.headers == headers
      ensures params == map[] && cookies == map[] && parseParamFlag == 0
    {
      this.query, this.body, this.headers := query, body, headers;
      params, cookies, parseParamFlag := map[], map[], 0;
    }

    function GetHeader(key: text): text
      reads this
    {
      if Fold(key) in headers then headers[Fold(key)].value else []
    }

    predicate IsForm()
      reads this
    {
      Contains(Fold(GetHeader(Ascii("content-type"))), FORM)
    }

    /** The body is a form exactly when the content type names one somewhere, in
        letters of either case. */
    lemma FormMeans()
      ensures IsForm() <==> Somewhere(Fold(GetHeader(Ascii("content-type"))), Ascii("application/x-www-form-urlencode"))
    {
      hide Contains, Fold, Somewhere, GetHeader, Ascii;
      ContainsMeans(Fold(GetHeader(Ascii("content-type"))), FORM);
    }

    /** What the query still adds. */
    function QueryPairs(): seq<Pair>
      reads this
    {
      if parseParamFlag & 0x1 != 0 then [] else Pairs(query, 0, AMPERSAND, false)
    }

    /** What the body still adds. */
    function BodyPairs(): seq<Pair>
      reads this
    {
      if parseParamFlag & 0x2 != 0 || !IsForm() then [] else Pairs(body, 0, AMPERSAND, false)
    }

    method InitQueryParam()
      modifies `params, `parseParamFlag
      ensures params == if old(parseParamFlag) & 0x1 != 0 then old(params) else InsertAll(old(params), Pairs(query, 0, '&' as int, false))
      ensures params == InsertAll(old(params), old(QueryPairs()))
      ensures parseParamFlag == old(parseParamFlag) | 0x1
    {
      if parseParamFlag & 0x1 != 0 {
        return;
      }
      params := ParseParams(query, params, AMPERSAND, false);
      parseParamFlag := parseParamFlag | 0x1;
    }

    method InitBodyParam()
      modifies `params, `parseParamFlag
      ensures params ==
                if old(parseParamFlag) & 0x2 != 0 || !IsForm() then old(params)
                else InsertAll(old(params), Pairs(body, 0, '&' as int, false))
      ensures params == InsertAll(old(params), old(BodyPairs()))
      ensures parseParamFlag == old(parseParamFlag) | 0x2
    {
      if parseParamFlag & 0x2 != 0 {
        return;
      }
      if !IsForm() {
        parseParamFlag := parseParamFlag | 0x2;
        return;
      }
      params := ParseParams(body, params, AMPERSAND, false);
      parseParamFlag := parseParamFlag | 0x2;
    }

    method InitCookies()
      modifies `cookies, `parseParamFlag
      ensures cookies == InsertAll(old(cookies),
        if old(parseParamFlag) & 0x4 != 0 then []
        else Pairs(old(GetHeader(Ascii("cookie"))), 0, ';' as int, true))
      ensures parseParamFlag == old(parseParamFlag) | 0x4
    {
      if parseParamFlag & 0x4 != 0 {
        return;
      }
      var cookie := GetHeader(Ascii("cookie"));
      if cookie == [] {
        parseParamFlag := parseParamFlag | 0x4;
        return;
      }
      cookies := ParseParams(cookie, cookies, SEMICOLON, true);
      parseParamFlag := parseParamFlag | 0x4;
    }

    /** A parameter set before wins over the query, the query over the body, and
        looking a second time changes nothing. */
    method GetParam(key: text, def: text) returns (value: text)
      modifies `params, `parseParamFlag
      ensures value ==
        (match old(Lookup(params, key))
         case Some(p) => p.value
         case None =>
           match FirstWith(old(QueryPairs()), key)
           case Some(p) => p.value
           case None =>
             match FirstWith(old(BodyPairs()), key)
             case Some(p) => p.value
             case None => def)
      ensures QueryPairs() == [] && BodyPairs() == []
    {
      ghost var q, b := QueryPairs(), BodyPairs();
      BitsIndependent(parseParamFlag);
      InitQueryParam();
      assert BodyPairs() == b;
      InsertAllLookup(old(params), q, key);
      ghost var mid := params;
      InitBodyParam();
      InsertAllLookup(mid, b, key);
      value := if Fold(key) in params then params[Fold(key)].value else def;
    }
  }

  lemma BitsIndependent(f: bv8)
    ensures (f | 0x1) & 0x2 == f & 0x2
    ensures ((f | 0x1) | 0x2) & 0x1 != 0 && ((f | 0x1) | 0x2) & 0x2 != 0
  {
  }
}

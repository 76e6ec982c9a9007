// The test harness's view of the screen: expected prompts cut into pages, and screen events put together again.

module Pages {
  import opened Octets
  import opened Decimals

  /** A prompt a test expects: titled text, maybe over several pages, or a plain screen. */
  datatype Expected = Titled(header: Bytes, prompt: Bytes, paginate: bool) | Plain(text: Bytes, x: int, y: int)

  /** What both sides compare. */
  datatype Entry = Entry(header: Bytes, prompt: Bytes) | Raw(text: Bytes, x: int, y: int)

  /** One text on the screen, as the emulator reports it. */
  datatype Screen = Screen(text: Bytes, x: int, y: int)

  // ---------------------------------------------------------------- pages

  predicate IsNewline(b: Byte) {
    b == 10 || b == 13
  }

  /** The length of the first match of `.{1,n}`, from a character that is no newline. */
  function Run(n: nat, s: Bytes): (k: nat)
    ensures k <= n && k <= |s|
    ensures n > 0 && s != [] && !IsNewline(s[0]) ==> k > 0
    ensures forall i :: 0 <= i < k ==> !IsNewline(s[i])
  {
    if n == 0 || s == [] || IsNewline(s[0]) then 0 else 1 + Run(n - 1, s[1..])
  }

  /** All matches of `.{1,n}` in a text. */
  function Matches(n: nat, s: Bytes): seq<Bytes>
    requires n > 0
    decreases |s|
  {
    if s == [] then []
    else if IsNewline(s[0]) then Matches(n, s[1..])
    else [s[..Run(n, s)]] + Matches(n, s[Run(n, s)..])
  }

  function PageHeader(header: Bytes, j: nat, count: nat): Bytes {
    header + Ascii(" (") + Decimal(j) + Ascii("/") + Decimal(count) + Ascii(")")
  }

  function Numbered(header: Bytes, chunks: seq<Bytes>, first: nat, count: nat): seq<Entry> {
    if chunks == [] then []
    else [Entry(PageHeader(header, first, count), chunks[0])] + Numbered(header, chunks[1..], first + 1, count)
  }

  /** The entries of one prompt; a text without a match makes the harness throw. */
  function PagesOf(n: nat, p: Expected): Option<seq<Entry>>
    requires n > 0
  {
    match p
    case Plain(text, x, y) => Some([Raw(text, x, y)])
    case Titled(header, prompt, paginate) =>
      if !paginate then Some([Entry(header, prompt)])
      else
        var chunks := Matches(n, prompt);
        if chunks == [] then None
        else if |chunks| == 1 then Some([Entry(header, prompt)])
        else Some(Numbered(header, chunks, 1, |chunks|))
  }

  function Paginated(n: nat, ps: seq<Expected>): Option<seq<Entry>>
    requires n > 0
  {
    if ps == [] then Some([])
    else
      var last := PagesOf(n, ps[|ps| - 1]);
      var init := Paginated(n, ps[..|ps| - 1]);
      if init.None? || last.None? then None else Some(init.value + last.value)
  }

  lemma {:induction false} NumberedSnoc(header: Bytes, chunks: seq<Bytes>, c: Bytes, first: nat, count: nat)
    ensures Numbered(header, chunks + [c], first, count) ==
            Numbered(header, chunks, first, count) + [Entry(PageHeader(header, first + |chunks|, count), c)]
  {
    if chunks == [] {
      assert [] + [c] == [c] && [c][1..] == [];
    } else {
      assert (chunks + [c])[1..] == chunks[1..] + [c];
      NumberedSnoc(header, chunks[1..], c, first + 1, count);
    }
  }

  lemma {:induction false} NoneStays(n: nat, ps: seq<Expected>, k: nat)
    requires n > 0 && k <= |ps| && Paginated(n, ps[..k]).None?
    ensures Paginated(n, ps).None?
    decreases |ps|
  {
    if k < |ps| {
      assert ps[..|ps| - 1][..k] == ps[..k];
      NoneStays(n, ps[..|ps| - 1], k);
    } else {
      assert ps[..k] == ps;
    }
  }

  method PaginatePrompts(n: nat, prompts: seq<Expected>) returns (r: Option<seq<Entry>>)
    requires n > 0
    ensures r == Paginated(n, prompts)
  {
    var rv: seq<Entry> := [];
    var ii := 0;
    while ii < |prompts|
      invariant 0 <= ii <= |prompts|
      invariant Paginated(n, prompts[..ii]) == Some(rv)
    {
      assert prompts[..ii + 1][..ii] == prompts[..ii];
      var value := prompts[ii];
      if value.Titled? && value.paginate {
        var chunks := Matches(n, value.prompt);
        if chunks == [] {
          NoneStays(n, prompts, ii + 1);
          return None;
        } else if |chunks| == 1 {
          rv := rv + [Entry(value.header, value.prompt)];
        } else {
          ghost var before := rv;
          var j := 0;
          while j < |chunks|
            invariant 0 <= j <= |chunks|
            invariant rv == before + Numbered(value.header, chunks[..j], 1, |chunks|)
          {
            NumberedSnoc(value.header, chunks[..j], chunks[j], 1, |chunks|);
            assert chunks[..j + 1] == chunks[..j] + [chunks[j]];
            rv := rv + [Entry(PageHeader(value.header, j + 1, |chunks|), chunks[j])];
            j := j + 1;
          }
          assert chunks[..j] == chunks;
        }
      } else if value.Titled? {
        rv := rv + [Entry(value.header, value.prompt)];
      } else {
        rv := rv + [Raw(value.text, value.x, value.y)];
      }
      ii := ii + 1;
    }
    assert prompts[..ii] == prompts;
    return Some(rv);
  }

  function Joined(ps: seq<Bytes>): Bytes {
    if ps == [] then [] else ps[0] + Joined(ps[1..])
  }

  predicate OneLine(s: Bytes) {
    forall i :: 0 <= i < |s| ==> !IsNewline(s[i])
  }

  lemma {:induction false} RunOfLine(n: nat, s: Bytes)
    requires OneLine(s)
    ensures Run(n, s) == if |s| < n then |s| else n
  {
    if n == 0 || s == [] {
    } else {
      RunOfLine(n - 1, s[1..]);
    }
  }

  lemma {:induction false} OneMorePage(n: nat, count: nat)
    ensures n * (count + 1) == n + n * count
  {
  }

  /** The pages of a one-line text join to the text; all but the last are full. */
  lemma {:induction false} PagesJoin(n: nat, s: Bytes)
    requires n > 0 && OneLine(s)
    ensures Joined(Matches(n, s)) == s
    ensures |s| <= n * |Matches(n, s)| < |s| + n
    ensures forall k :: 0 <= k < |Matches(n, s)| ==> 0 < |Matches(n, s)[k]| <= n
    decreases |s|
  {
    if s == [] {
    } else {
      RunOfLine(n, s);
      var k := Run(n, s);
      PagesJoin(n, s[k..]);
      assert s == s[..k] + s[k..];
      OneMorePage(n, |Matches(n, s[k..])|);
      assert Matches(n, s)[1..] == Matches(n, s[k..]);
    }
  }

  /** Up to `n` characters from `i` on. */
  predicate IsPiece(piece: Bytes, s: Bytes, i: int, n: nat) {
    0 <= i <= |s| && piece == if |s| <= i + n then s[i..] else s[i..i + n]
  }

  lemma {:induction false} PieceOfRest(piece: Bytes, s: Bytes, i: int, n: nat)
    requires n <= |s| && IsPiece(piece, s[n..], i, n)
    ensures IsPiece(piece, s, n + i, n)
  {
    assert s[n..][i..] == s[n + i..];
    if i + n <= |s[n..]| { assert s[n..][i..i + n] == s[n + i..n + i + n]; }
  }

  /** Where page `k` of a one-line text begins and ends. */
  lemma {:induction false} MatchAt(n: nat, s: Bytes, k: nat)
    requires n > 0 && OneLine(s) && k < |Matches(n, s)|
    ensures IsPiece(Matches(n, s)[k], s, n * k, n)
    decreases k
  {
    RunOfLine(n, s);
    if k == 0 {
      assert n * k == 0;
    } else {
      var rest := s[Run(n, s)..];
      assert Matches(n, s)[k] == Matches(n, rest)[k - 1];
      MatchAt(n, rest, k - 1);
      OneMorePage(n, k - 1);
      PieceOfRest(Matches(n, s)[k], s, n * (k - 1), n);
    }
  }

  lemma {:induction false} NumberedAt(header: Bytes, chunks: seq<Bytes>, first: nat, count: nat)
    ensures |Numbered(header, chunks, first, count)| == |chunks|
    ensures forall k :: 0 <= k < |chunks| ==>
              Numbered(header, chunks, first, count)[k] == Entry(PageHeader(header, first + k, count), chunks[k])
  {
    if chunks == [] {
    } else {
      NumberedAt(header, chunks[1..], first + 1, count);
    }
  }

  /** The page of a one-line text: its number and the number of pages in the header, and up to `n` characters. */
  predicate IsPage(e: Entry, n: nat, header: Bytes, prompt: Bytes, k: nat, count: nat) {
    && e.Entry? && IsPiece(e.prompt, prompt, n * k, n)
    && e.header == header + Ascii(" (") + Decimal(k + 1) + Ascii("/") + Decimal(count) + Ascii(")")
  }

  lemma {:induction false} MoreThanOne(n: nat, count: nat)
    requires n * count > n
    ensures count > 1
  {
  }

  /** The pages of a one-line text: none if it is empty, the text itself if it fits one page, and otherwise as many
      numbered pages as it needs. */
  lemma {:induction false} PagesSpelled(n: nat, header: Bytes, prompt: Bytes)
    requires n > 0 && OneLine(prompt)
    ensures var r := PagesOf(n, Titled(header, prompt, true));
            if prompt == [] then r.None?
            else if |prompt| <= n then r == Some([Entry(header, prompt)])
            else
              && r.Some? && |prompt| <= n * |r.value| < |prompt| + n
              && forall k :: 0 <= k < |r.value| ==> IsPage(r.value[k], n, header, prompt, k, |r.value|)
    ensures PagesOf(n, Titled(header, prompt, false)) == Some([Entry(header, prompt)])
  {
    var chunks := Matches(n, prompt);
    PagesJoin(n, prompt);
    if prompt != [] && |prompt| <= n {
      RunOfLine(n, prompt);
      assert prompt[..Run(n, prompt)] == prompt && prompt[Run(n, prompt)..] == [];
      assert chunks == [prompt] + Matches(n, []);
    } else if |prompt| > n {
      MoreThanOne(n, |chunks|);
      NumberedAt(header, chunks, 1, |chunks|);
      forall k | 0 <= k < |chunks|
        ensures IsPage(Numbered(header, chunks, 1, |chunks|)[k], n, header, prompt, k, |chunks|)
      {
        MatchAt(n, prompt, k);
      }
    }
  }

  // ---------------------------------------------------------------- putting events together

  /** Texts of the surrounding menus, which the harness does not look at. */
  const IGNORED: seq<Bytes> := [
    Ascii("Cancel"), Ascii("Working..."), Ascii("Quit"), Ascii("Version"), Ascii("Provenance"), Ascii("0.1.0"),
    Ascii("Settings"), Ascii("Blind Signing"), Ascii("Enabled"), Ascii("Disabled"), Ascii("Back"),
    Ascii("ettings"), Ascii("Blind igning")]

  function Filtered(ignored: seq<Bytes>, es: seq<Screen>): seq<Screen> {
    if es == [] then []
    else (if es[0].text in ignored then [] else [es[0]]) + Filtered(ignored, es[1..])
  }

  predicate IsHeader(e: Screen) {
    e.y == 0 || e.y == 1
  }

  predicate IsBody(e: Screen) {
    e.y == 16 || e.y == 31 || e.y == 46
  }

  function Flushed(header: Bytes, prompt: Bytes): seq<Entry> {
    if header != [] || prompt != [] then [Entry(header, prompt)] else []
  }

  /** The harness's state: finished entries, and the one under construction. */
  datatype Reading = Reading(rv: seq<Entry>, header: Bytes, prompt: Bytes)

  function Took(r: Reading, e: Screen): Reading {
    if IsHeader(e) then
      if e.text != r.header then Reading(r.rv + Flushed(r.header, r.prompt), e.text, []) else r
    else if IsBody(e) then r.(prompt := r.prompt + e.text)
    else Reading(r.rv + Flushed(r.header, r.prompt) + [Raw(e.text, e.x, e.y)], [], [])
  }

  function TookAll(r: Reading, es: seq<Screen>): Reading
    decreases |es|
  {
    if es == [] then r else TookAll(Took(r, es[0]), es[1..])
  }

  function Closed(r: Reading): seq<Entry> {
    r.rv + Flushed(r.header, r.prompt)
  }

  function Processed(ignored: seq<Bytes>, es: seq<Screen>): seq<Entry> {
    Closed(TookAll(Reading([], [], []), Filtered(ignored, es)))
  }

  method ProcessPrompts(prompts: seq<Screen>) returns (rv: seq<Entry>)
    ensures rv == Processed(IGNORED, prompts)
  {
    var i := Filtered(IGNORED, prompts);
    var header: Bytes := [];
    var prompt: Bytes := [];
    rv := [];
    var ii := 0;
    assert i[0..] == i;
    while ii < |i|
      invariant 0 <= ii <= |i|
      invariant TookAll(Reading(rv, header, prompt), i[ii..]) == TookAll(Reading([], [], []), i)
    {
      var value := i[ii];
      assert i[ii..][0] == value && i[ii..][1..] == i[ii + 1..];
      assert rv + [] == rv;
      if value.y == 0 || value.y == 1 {
        if value.text != header {
          if header != [] || prompt != [] {
            rv := rv + [Entry(header, prompt)];
          }
          header := value.text;
          prompt := [];
        }
      } else if value.y == 16 {
        prompt := prompt + value.text;
      } else if value.y == 31 {
        prompt := prompt + value.text;
      } else if value.y == 46 {
        prompt := prompt + value.text;
      } else {
        if header != [] || prompt != [] {
          rv := rv + [Entry(header, prompt)];
        }
        rv := rv + [Raw(value.text, value.x, value.y)];
        header := [];
        prompt := [];
      }
      ii := ii + 1;
    }
    if header != [] || prompt != [] {
      rv := rv + [Entry(header, prompt)];
    }
  }

  // ---------------------------------------------------------------- there and back

  function Body(es: seq<Screen>): Bytes {
    if es == [] then [] else (if IsBody(es[0]) then es[0].text else []) + Body(es[1..])
  }

  /** The screens of one entry: its header, then pieces of its text, where the header may be drawn again. */
  predicate Draws(e: Entry, es: seq<Screen>) {
    match e
    case Raw(text, x, y) =>
      es == [Screen(text, x, y)] && !IsHeader(es[0]) && !IsBody(es[0])
    case Entry(header, prompt) =>
      && es != [] && IsHeader(es[0]) && header != []
      && (forall k :: 0 <= k < |es| ==> (IsHeader(es[k]) && es[k].text == header) || IsBody(es[k]))
      && Body(es) == prompt
  }

  function Drawn(ess: seq<seq<Screen>>): seq<Screen> {
    if ess == [] then [] else ess[0] + Drawn(ess[1..])
  }

  predicate Unignored(ignored: seq<Bytes>, es: seq<Screen>) {
    forall k :: 0 <= k < |es| ==> es[k].text !in ignored
  }

  /** Two titled entries next to each other must not have the same header. */
  predicate Apart(a: Entry, b: Entry) {
    a.Entry? && b.Entry? ==> a.header != b.header
  }

  predicate Neighbours(entries: seq<Entry>) {
    forall k :: 0 < k < |entries| ==> Apart(entries[k - 1], entries[k])
  }

  lemma {:induction false} FilteredAll(ignored: seq<Bytes>, es: seq<Screen>)
    requires Unignored(ignored, es)
    ensures Filtered(ignored, es) == es
  {
    if es == [] {
    } else {
      FilteredAll(ignored, es[1..]);
      assert es == [es[0]] + es[1..];
    }
  }

  lemma {:induction false} TookConcat(r: Reading, a: seq<Screen>, b: seq<Screen>)
    ensures TookAll(r, a + b) == TookAll(TookAll(r, a), b)
    decreases |a|
  {
    if a == [] {
      assert a + b == b;
    } else {
      assert (a + b)[1..] == a[1..] + b;
      TookConcat(Took(r, a[0]), a[1..], b);
    }
  }

  /** Under its own header, the pieces of an entry pile up. */
  lemma {:induction false} TookBody(r: Reading, es: seq<Screen>)
    requires forall k :: 0 <= k < |es| ==> (IsHeader(es[k]) && es[k].text == r.header) || IsBody(es[k])
    ensures TookAll(r, es) == r.(prompt := r.prompt + Body(es))
    decreases |es|
  {
    if es == [] {
      assert r.prompt + [] == r.prompt;
    } else {
      var r' := Took(r, es[0]);
      TookBody(r', es[1..]);
      assert r'.prompt + Body(es[1..]) == r.prompt + Body(es);
    }
  }

  /** The state after an entry's screens: the entry is under construction, or done if it is a plain one. */
  function Behind(rv: seq<Entry>, e: Entry): Reading {
    match e
    case Entry(header, prompt) => Reading(rv, header, prompt)
    case Raw(_, _, _) => Reading(rv + [e], [], [])
  }

  lemma {:induction false} OneEntry(r: Reading, e: Entry, es: seq<Screen>)
    requires Draws(e, es) && (e.Entry? ==> r.header != e.header)
    ensures TookAll(r, es) == Behind(Closed(r), e)
  {
    match e
    case Raw(text, x, y) =>
      assert es[1..] == [];
    case Entry(header, prompt) =>
      var r' := Took(r, es[0]);
      TookBody(r', es[1..]);
      assert [] + Body(es[1..]) == Body(es);
  }

  lemma {:induction false} NextDiffers(r: Reading, entries: seq<Entry>)
    requires entries != [] && Neighbours(entries)
    requires r.header == if entries[0].Entry? then entries[0].header else []
    requires forall k :: 0 <= k < |entries| && entries[k].Entry? ==> entries[k].header != []
    ensures Neighbours(entries[1..])
    ensures entries[1..] != [] && entries[1].Entry? ==> r.header != entries[1].header
  {
    if |entries| > 1 { assert Apart(entries[0], entries[1]); }
    forall k | 0 < k < |entries[1..]| ensures Apart(entries[1..][k - 1], entries[1..][k]) {
      assert Apart(entries[k], entries[k + 1]);
    }
  }

  lemma {:induction false} ManyEntries(r: Reading, entries: seq<Entry>, ess: seq<seq<Screen>>)
    requires |entries| == |ess| && forall k :: 0 <= k < |ess| ==> Draws(entries[k], ess[k])
    requires Neighbours(entries) && (entries != [] && entries[0].Entry? ==> r.header != entries[0].header)
    ensures Closed(TookAll(r, Drawn(ess))) == Closed(r) + entries
    decreases |ess|
  {
    if ess == [] {
      assert Closed(r) + entries == Closed(r);
    } else {
      var e := entries[0];
      OneEntry(r, e, ess[0]);
      TookConcat(r, ess[0], Drawn(ess[1..]));
      var r' := Behind(Closed(r), e);
      assert Closed(r') == Closed(r) + [e];
      NextDiffers(r', entries);
      ManyEntries(r', entries[1..], ess[1..]);
      assert Closed(r) + [e] + entries[1..] == Closed(r) + entries;
    }
  }

  /** Events that draw a list of entries, in any number of pieces, are put together to exactly that list. */
  lemma {:induction false} ProcessInvertsDrawing(ignored: seq<Bytes>, entries: seq<Entry>, ess: seq<seq<Screen>>)
    requires |entries| == |ess| && forall k :: 0 <= k < |ess| ==> Draws(entries[k], ess[k])
    requires Neighbours(entries) && Unignored(ignored, Drawn(ess))
    ensures Processed(ignored, Drawn(ess)) == entries
  {
    FilteredAll(ignored, Drawn(ess));
    ManyEntries(Reading([], [], []), entries, ess);
    assert Closed(Reading([], [], [])) + entries == entries;
  }

  function HeaderOf(e: Entry): Bytes {
    if e.Entry? then e.header else []
  }

  /** How many entries the harness tells apart behind one with this header. */
  function Told(header: Bytes, entries: seq<Entry>): nat
    decreases |entries|
  {
    if entries == [] then 0
    else
      (if entries[0].Entry? && entries[0].header == header then 0 else 1) + Told(HeaderOf(entries[0]), entries[1..])
  }

  lemma {:induction false} ToldCounts(r: Reading, entries: seq<Entry>, ess: seq<seq<Screen>>)
    requires |entries| == |ess| && forall k :: 0 <= k < |ess| ==> Draws(entries[k], ess[k])
    requires r.header == [] ==> r.prompt == []
    ensures |Closed(TookAll(r, Drawn(ess)))| == |Closed(r)| + Told(r.header, entries)
    decreases |ess|
  {
    if ess == [] {
    } else {
      var e := entries[0];
      TookConcat(r, ess[0], Drawn(ess[1..]));
      if e.Entry? && e.header == r.header {
        TookBody(r, ess[0]);
      } else {
        OneEntry(r, e, ess[0]);
      }
      ToldCounts(TookAll(r, ess[0]), entries[1..], ess[1..]);
    }
  }

  lemma {:induction false} ToldAtMost(header: Bytes, entries: seq<Entry>)
    ensures Told(header, entries) <= |entries|
    ensures Told(header, entries) == |entries| ==> Neighbours(entries)
    ensures Told(header, entries) == |entries| && entries != [] ==> !(entries[0].Entry? && entries[0].header == header)
    decreases |entries|
  {
    if entries == [] {
    } else {
      ToldAtMost(HeaderOf(entries[0]), entries[1..]);
      if Told(header, entries) == |entries| {
        forall k | 0 < k < |entries| ensures Apart(entries[k - 1], entries[k]) {
          if k > 1 { assert Apart(entries[1..][k - 2], entries[1..][k - 1]); }
        }
      }
    }
  }

  /** The harness puts drawn entries together to exactly those entries if and only if no two titled neighbours
      share a header. */
  lemma {:induction false} ProcessExactly(ignored: seq<Bytes>, entries: seq<Entry>, ess: seq<seq<Screen>>)
    requires |entries| == |ess| && forall k :: 0 <= k < |ess| ==> Draws(entries[k], ess[k])
    requires Unignored(ignored, Drawn(ess))
    ensures Processed(ignored, Drawn(ess)) == entries <==> Neighbours(entries)
  {
    if Neighbours(entries) {
      ProcessInvertsDrawing(ignored, entries, ess);
    } else {
      FilteredAll(ignored, Drawn(ess));
      ToldCounts(Reading([], [], []), entries, ess);
      ToldAtMost([], entries);
    }
  }

  // ---------------------------------------------------------------- screens, spelled out

  lemma {:induction false} FilteredConcat(ignored: seq<Bytes>, a: seq<Screen>, b: seq<Screen>)
    ensures Filtered(ignored, a + b) == Filtered(ignored, a) + Filtered(ignored, b)
  {
    if a == [] {
      assert a + b == b;
    } else {
      assert (a + b)[0] == a[0] && (a + b)[1..] == a[1..] + b;
      FilteredConcat(ignored, a[1..], b);
    }
  }

  /** The texts of the menus. */
  predicate IsMenuText(text: Bytes) {
    || text == Ascii("Cancel") || text == Ascii("Working...") || text == Ascii("Quit") || text == Ascii("Version")
    || text == Ascii("Provenance") || text == Ascii("0.1.0") || text == Ascii("Settings")
    || text == Ascii("Blind Signing") || text == Ascii("Enabled") || text == Ascii("Disabled") || text == Ascii("Back")
    || text == Ascii("ettings") || text == Ascii("Blind igning")
  }

  lemma {:induction false} IgnoredAre(text: Bytes)
    ensures text in IGNORED <==> IsMenuText(text)
  {
  }

  /** A screen of the menus makes no difference wherever it comes. */
  lemma {:induction false} MenusPassedOver(a: seq<Screen>, s: Screen, b: seq<Screen>)
    requires IsMenuText(s.text)
    ensures Processed(IGNORED, a + [s] + b) == Processed(IGNORED, a + b)
  {
    IgnoredAre(s.text);
    FilteredConcat(IGNORED, a + [s], b);
    FilteredConcat(IGNORED, a, [s]);
    FilteredConcat(IGNORED, a, b);
    assert [s][1..] == [] && Filtered(IGNORED, [s]) == [];
    assert Filtered(IGNORED, a) + [] == Filtered(IGNORED, a);
  }

  lemma {:induction false} OneDrawn(e: Entry, es: seq<Screen>)
    requires Draws(e, es) && Unignored(IGNORED, es)
    ensures Processed(IGNORED, es) == [e]
  {
    assert [es][1..] == [] && es + [] == es;
    assert Drawn([es]) == es;
    ProcessInvertsDrawing(IGNORED, [e], [es]);
  }

  lemma {:induction false} BodyOfThree(a: Screen, b: Screen, c: Screen)
    requires IsBody(a) && IsBody(b) && IsBody(c)
    ensures Body([a, b, c]) == a.text + b.text + c.text
  {
    assert [a, b, c][1..] == [b, c] && [b, c][1..] == [c] && [c][1..] == [];
    assert Body([c]) == c.text + [] && Body([b, c]) == b.text + Body([c]);
  }

  /** A header in row 0 or 1, and text in the rows 16, 31 and 46, are one entry; anything else stands for itself. */
  lemma {:induction false} RowsSpelled(header: Bytes, a: Bytes, b: Bytes, c: Bytes, x: int, top: int, y: int)
    requires header != [] && (top == 0 || top == 1)
    requires !IsMenuText(header) && !IsMenuText(a) && !IsMenuText(b) && !IsMenuText(c)
    ensures Processed(IGNORED, [Screen(header, x, top), Screen(a, x, 16), Screen(b, x, 31), Screen(c, x, 46)]) ==
            [Entry(header, a + b + c)]
    ensures y !in {0, 1, 16, 31, 46} ==> Processed(IGNORED, [Screen(a, x, y)]) == [Raw(a, x, y)]
  {
    IgnoredAre(header);
    IgnoredAre(a);
    IgnoredAre(b);
    IgnoredAre(c);
    BodyOfThree(Screen(a, x, 16), Screen(b, x, 31), Screen(c, x, 46));
    var es := [Screen(header, x, top), Screen(a, x, 16), Screen(b, x, 31), Screen(c, x, 46)];
    assert es[1..] == [Screen(a, x, 16), Screen(b, x, 31), Screen(c, x, 46)];
    assert Body(es) == [] + Body(es[1..]);
    OneDrawn(Entry(header, a + b + c), es);
    if y !in {0, 1, 16, 31, 46} { OneDrawn(Raw(a, x, y), [Screen(a, x, y)]); }
  }

  // ---------------------------------------------------------------- the pages stay apart

  lemma {:induction false} DecimalInjective(j: nat, k: nat)
    requires Decimal(j) == Decimal(k)
    ensures j == k
  {
    DecimalFacts(j);
    DecimalFacts(k);
  }

  /** Headers of different pages of one prompt differ. */
  lemma {:induction false} PageHeadersDiffer(header: Bytes, j: nat, k: nat, count: nat)
    requires PageHeader(header, j, count) == PageHeader(header, k, count)
    ensures j == k
  {
    var a, b := PageHeader(header, j, count), PageHeader(header, k, count);
    var m := |header| + 2;
    assert |a| == m + |Decimal(j)| + 1 + |Decimal(count)| + 1;
    assert |b| == m + |Decimal(k)| + 1 + |Decimal(count)| + 1;
    assert a[m..m + |Decimal(j)|] == Decimal(j);
    assert b[m..m + |Decimal(k)|] == Decimal(k);
    DecimalInjective(j, k);
  }

  lemma {:induction false} PagesAreNeighbours(n: nat, p: Expected)
    requires n > 0 && PagesOf(n, p).Some?
    ensures PagesOf(n, p).value != [] && Neighbours(PagesOf(n, p).value)
  {
    if p.Titled? && p.paginate && |Matches(n, p.prompt)| > 1 {
      var chunks := Matches(n, p.prompt);
      NumberedAt(p.header, chunks, 1, |chunks|);
      forall k | 0 < k < |chunks|
        ensures Apart(PagesOf(n, p).value[k - 1], PagesOf(n, p).value[k])
      {
        if PageHeader(p.header, k, |chunks|) == PageHeader(p.header, k + 1, |chunks|) {
          PageHeadersDiffer(p.header, k, k + 1, |chunks|);
        }
      }
    }
  }

  /** The last page of one prompt and the first of the next are told apart by their headers. */
  predicate Bounded(n: nat, ps: seq<Expected>)
    requires n > 0
  {
    forall k :: 0 < k < |ps| ==>
      var a, b := PagesOf(n, ps[k - 1]), PagesOf(n, ps[k]);
      a.Some? && b.Some? && a.value != [] && b.value != [] ==> Apart(a.value[|a.value| - 1], b.value[0])
  }

  lemma {:induction false} JoinedNeighbours(a: seq<Entry>, b: seq<Entry>)
    requires Neighbours(a) && Neighbours(b) && (a != [] && b != [] ==> Apart(a[|a| - 1], b[0]))
    ensures Neighbours(a + b)
  {
    forall k | 0 < k < |a + b| ensures Apart((a + b)[k - 1], (a + b)[k]) {
      if k > |a| { assert Apart(b[k - |a| - 1], b[k - |a|]); }
    }
  }

  lemma {:induction false} PaginatedNeighbours(n: nat, ps: seq<Expected>)
    requires n > 0 && Bounded(n, ps) && Paginated(n, ps).Some?
    ensures Neighbours(Paginated(n, ps).value)
    ensures ps != [] ==>
              var last := PagesOf(n, ps[|ps| - 1]);
              && last.Some? && last.value != []
              && last.value == Paginated(n, ps).value[|Paginated(n, ps).value| - |last.value|..]
  {
    if ps == [] {
    } else {
      var init := ps[..|ps| - 1];
      PaginatedNeighbours(n, init);
      PagesAreNeighbours(n, ps[|ps| - 1]);
      var a, b := Paginated(n, init).value, PagesOf(n, ps[|ps| - 1]).value;
      if init != [] {
        PagesAreNeighbours(n, init[|init| - 1]);
        assert init[|init| - 1] == ps[|ps| - 2];
        var last := PagesOf(n, init[|init| - 1]).value;
        assert a[|a| - 1] == last[|last| - 1];
      }
      JoinedNeighbours(a, b);
    }
  }

  /** Paginating and reassembling undo each other: however the device draws the paginated prompts, the harness
      puts exactly them together again. */
  lemma {:induction false} PaginateThenProcess(ignored: seq<Bytes>, n: nat, ps: seq<Expected>, ess: seq<seq<Screen>>)
    requires n > 0 && Bounded(n, ps) && Paginated(n, ps).Some?
    requires var entries := Paginated(n, ps).value;
             && |entries| == |ess| && (forall k :: 0 <= k < |ess| ==> Draws(entries[k], ess[k]))
             && Unignored(ignored, Drawn(ess))
    ensures Processed(ignored, Drawn(ess)) == Paginated(n, ps).value
  {
    PaginatedNeighbours(n, ps);
    ProcessInvertsDrawing(ignored, Paginated(n, ps).value, ess);
  }
}

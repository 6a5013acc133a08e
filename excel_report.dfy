/**
 * The spreadsheet report (src/excel_generator.py): the area column's name,
 * the selected and renamed columns, the file name's city part, the column
 * widths and the rewriting of url cells into hyperlinks. pandas and openpyxl
 * are left out; the sheet is kept as the header, the shown text of every
 * column, the widths and the url column's cells.
 */
module ExcelReport {
  import opened Common
  import opened Text
  import opened Json
  import opened Ads
  import opened PriceFormat

  const SotkiColumn := "Площадь, сотки"
  const SquareMetresColumn := "Площадь, кв.м."
  const AddressColumn := "Адрес"
  const CategoryColumn := "Категория"
  const PerSqmColumn := "Цена за кв.м."
  const PriceColumn := "Итоговая цена"
  const DescriptionColumn := "Описание"
  const UrlColumn := "Ссылка на объявление"
  const ColorColumn := "Цвет категории"
  const LinkText := "Перейти"

  // ---------------------------------------------------------------------------
  // The area column

  /** A category name that, lower-cased, names land plots. */
  predicate MentionsLand(name: string) {
    Contains(Lower(name), "земельные") || Contains(Lower(name), "земельный")
  }

  /** The scan over the distinct category names: None when there is no
      `category_name` column; a None entry is a missing name (dropped). */
  method AreaColumnName(categories: Option<seq<Option<string>>>) returns (name: string)
    ensures name == SotkiColumn <==>
      categories.Some? && exists i | 0 <= i < |categories.value| ::
        categories.value[i].Some? && MentionsLand(categories.value[i].value)
    ensures name == SotkiColumn || name == SquareMetresColumn
  {
    assert SotkiColumn[10] != SquareMetresColumn[10];
    if categories.None? {
      return SquareMetresColumn;
    }
    var names := categories.value;
    name := SquareMetresColumn;
    var i := 0;
    while i < |names|
      invariant 0 <= i <= |names|
      invariant name == SquareMetresColumn
      invariant forall j | 0 <= j < i :: !(names[j].Some? && MentionsLand(names[j].value))
    {
      if names[i].Some? && MentionsLand(names[i].value) {
        name := SotkiColumn;
        break;
      }
      i := i + 1;
    }
  }

  // ---------------------------------------------------------------------------
  // Columns

  /** The keys of a listing record, in the record's order. */
  const ListingKeys: seq<string> := ["address", "area", "price", "price_per_sqm", "url", "description",
    "title", "image_url", "city", "category_id", "category_name", "category_color"]

  /** The `rename` applied to the data frame; other keys keep their names. */
  function Rename(key: string, areaName: string): string {
    if key == "address" then AddressColumn
    else if key == "area" then areaName
    else if key == "price_per_sqm" then PerSqmColumn
    else if key == "price" then PriceColumn
    else if key == "description" then DescriptionColumn
    else if key == "url" then UrlColumn
    else if key == "category_name" then CategoryColumn
    else if key == "category_color" then ColorColumn
    else key
  }

  /** `columns_to_include`, in its order. */
  function WantedColumns(areaName: string): seq<string> {
    [AddressColumn, CategoryColumn, areaName, PerSqmColumn, PriceColumn, DescriptionColumn, UrlColumn]
  }

  /** `[c for c in wanted if c in present]`. */
  function KeepPresent(wanted: seq<string>, present: seq<string>): (r: seq<string>)
    ensures |r| <= |wanted|
    decreases |wanted|
  {
    if |wanted| == 0 then []
    else
      var n := |wanted| - 1;
      KeepPresent(wanted[..n], present) + if wanted[n] in present then [wanted[n]] else []
  }

  /** A column is selected exactly when it is wanted and present. */
  lemma {:induction false} KeepPresentSelects(wanted: seq<string>, present: seq<string>, c: string)
    ensures c in KeepPresent(wanted, present) <==> c in wanted && c in present
    decreases |wanted|
  {
    if |wanted| > 0 {
      var n := |wanted| - 1;
      KeepPresentSelects(wanted[..n], present, c);
      assert wanted == wanted[..n] + [wanted[n]];
    }
  }

  /** `xs` is `ys` with some elements left out, the rest in order. */
  predicate Subsequence(xs: seq<string>, ys: seq<string>)
    decreases |ys|
  {
    if |xs| == 0 then true
    else if |ys| == 0 then false
    else if xs[|xs| - 1] == ys[|ys| - 1] then Subsequence(xs[..|xs| - 1], ys[..|ys| - 1])
    else Subsequence(xs, ys[..|ys| - 1])
  }

  /** Appending to `ys` keeps a subsequence a subsequence. */
  lemma {:induction false} SubsequenceExtend(xs: seq<string>, ys: seq<string>, y: string)
    requires Subsequence(xs, ys)
    ensures Subsequence(xs, ys + [y])
    decreases |ys|, 1
  {
    var ys' := ys + [y];
    assert ys'[..|ys'| - 1] == ys;
    if |xs| > 0 && xs[|xs| - 1] == y {
      SubsequenceDropLast(xs, ys);
    }
  }

  /** Leaving out the last element keeps a subsequence a subsequence. */
  lemma {:induction false} SubsequenceDropLast(xs: seq<string>, ys: seq<string>)
    requires |xs| > 0 && Subsequence(xs, ys)
    ensures Subsequence(xs[..|xs| - 1], ys)
    decreases |ys|, 0
  {
    var n := |ys| - 1;
    assert ys == ys[..n] + [ys[n]];
    if xs[|xs| - 1] == ys[n] {
      SubsequenceExtend(xs[..|xs| - 1], ys[..n], ys[n]);
    } else {
      SubsequenceDropLast(xs, ys[..n]);
      SubsequenceExtend(xs[..|xs| - 1], ys[..n], ys[n]);
    }
  }

  /** The selected columns keep the fixed list's order. */
  lemma {:induction false} KeepPresentInOrder(wanted: seq<string>, present: seq<string>)
    ensures Subsequence(KeepPresent(wanted, present), wanted)
    decreases |wanted|
  {
    if |wanted| > 0 {
      var n := |wanted| - 1;
      KeepPresentInOrder(wanted[..n], present);
      var r := KeepPresent(wanted, present);
      if wanted[n] in present {
        assert r[..|r| - 1] == KeepPresent(wanted[..n], present);
      } else {
        assert r == KeepPresent(wanted[..n], present);
        SubsequenceExtend(r, wanted[..n], wanted[n]);
        assert wanted[..n] + [wanted[n]] == wanted;
      }
    }
  }

  /** When every wanted column is present, all are selected. */
  lemma {:induction false} KeepAllPresent(wanted: seq<string>, present: seq<string>)
    requires forall k | 0 <= k < |wanted| :: wanted[k] in present
    ensures KeepPresent(wanted, present) == wanted
    decreases |wanted|
  {
    if |wanted| > 0 {
      var n := |wanted| - 1;
      assert forall k | 0 <= k < n :: wanted[..n][k] == wanted[k];
      KeepAllPresent(wanted[..n], present);
      assert wanted[..n] + [wanted[n]] == wanted;
    }
  }

  /** The columns of the sheet: the wanted ones present after the rename. */
  function ReportColumns(keys: seq<string>, areaName: string): (r: seq<string>)
  {
    KeepPresent(WantedColumns(areaName), seq(|keys|, i requires 0 <= i < |keys| => Rename(keys[i], areaName)))
  }

  /** For a data frame built from listing records every wanted column is
      present, so the sheet has exactly the fixed list, in its order. */
  lemma ListingSheetColumns(areaName: string)
    requires areaName == SotkiColumn || areaName == SquareMetresColumn
    ensures ReportColumns(ListingKeys, areaName) == WantedColumns(areaName)
  {
    var present := seq(|ListingKeys|, i requires 0 <= i < |ListingKeys| => Rename(ListingKeys[i], areaName));
    var w := WantedColumns(areaName);
    assert w[0] == present[0] && w[2] == present[1] && w[3] == present[3] && w[4] == present[2];
    assert w[5] == present[5] && w[6] == present[4] && w[1] == present[10];
    KeepAllPresent(w, present);
  }

  // ---------------------------------------------------------------------------
  // The file name

  /** `city_part`: empty for no city, otherwise "_" and the lower-cased city
      with spaces turned into "_". */
  function CityPart(city: string): (r: string)
    ensures city == "" <==> r == ""
    ensures city != "" ==> |r| == |city| + 1 && r[0] == '_'
    ensures city != "" ==>
      forall i | 0 <= i < |city| :: r[i + 1] == (if LowerChar(city[i]) == ' ' then '_' else LowerChar(city[i]))
  {
    if city == "" then "" else "_" + ReplaceChar(Lower(city), ' ', '_')
  }

  /** The city part holds no space and no upper-case letter. */
  lemma CityPartIsSlug(city: string)
    ensures forall i | 0 <= i < |CityPart(city)| :: CityPart(city)[i] != ' ' && !IsUpper(CityPart(city)[i])
  {
    if city != "" {
      var r := CityPart(city);
      forall i | 0 <= i < |r|
        ensures r[i] != ' ' && !IsUpper(r[i])
      {
        if i > 0 {
          assert r[i] == ReplaceChar(Lower(city), ' ', '_')[i - 1];
        }
      }
    }
  }

  // ---------------------------------------------------------------------------
  // Column widths

  /** The length of the longest text in a column; 0 for an empty column. */
  function LongestCell(cells: seq<string>): (m: nat)
    ensures forall i | 0 <= i < |cells| :: |cells[i]| <= m
    ensures |cells| == 0 ==> m == 0
    ensures |cells| > 0 ==> exists i | 0 <= i < |cells| :: |cells[i]| == m
    decreases |cells|
  {
    if |cells| == 0 then 0
    else
      var n := |cells| - 1;
      var m := LongestCell(cells[..n]);
      assert forall i | 0 <= i < n :: cells[..n][i] == cells[i];
      if |cells[n]| > m then |cells[n]| else m
  }

  /** The width of a column: two more than the longer of its name and its
      longest text. (An empty column's `max()` is NaN, which `or` keeps and
      Python's `max` then ignores.) */
  function ColumnWidth(name: string, cells: seq<string>): (w: int)
    ensures w >= |name| + 2
    ensures forall i | 0 <= i < |cells| :: w >= |cells[i]| + 2
    ensures w == |name| + 2 || exists i | 0 <= i < |cells| :: w == |cells[i]| + 2
  {
    var longest := LongestCell(cells);
    if |name| >= longest then |name| + 2 else longest + 2
  }

  /** The width loop: one width per header entry, over that column's texts. */
  method ColumnWidths(header: seq<string>, columns: seq<seq<string>>) returns (widths: seq<int>)
    requires |columns| == |header|
    ensures |widths| == |header|
    ensures forall c | 0 <= c < |header| :: widths[c] == ColumnWidth(header[c], columns[c])
  {
    widths := [];
    for c := 0 to |header|
      invariant |widths| == c
      invariant forall k | 0 <= k < c :: widths[k] == ColumnWidth(header[k], columns[k])
    {
      var cells := columns[c];
      var longest := 0;
      for r := 0 to |cells|
        invariant longest == LongestCell(cells[..r])
      {
        assert cells[..r + 1][..r] == cells[..r];
        if |cells[r]| > longest {
          longest := |cells[r]|;
        }
      }
      assert cells[..|cells|] == cells;
      var width := if |header[c]| >= longest then |header[c]| + 2 else longest + 2;
      widths := widths + [width];
    }
  }

  // ---------------------------------------------------------------------------
  // Url cells

  /** What `urlsplit` removes first: leading C0 controls and spaces. */
  function LStripControls(s: string): (r: string)
    ensures |r| <= |s|
    ensures |r| > 0 ==> r[0] > ' '
    ensures r == s[|s| - |r|..]
    decreases |s|
  {
    if |s| > 0 && s[0] <= ' ' then LStripControls(s[1..]) else s
  }

  /** Only characters at or below space are stripped. */
  lemma {:induction false} LStripControlsRemovesOnlyControls(s: string)
    ensures forall k | 0 <= k < |s| - |LStripControls(s)| :: s[k] <= ' '
    decreases |s|
  {
    if |s| > 0 && s[0] <= ' ' {
      LStripControlsRemovesOnlyControls(s[1..]);
      assert forall k | 1 <= k < |s| :: s[k] == s[1..][k - 1];
    }
  }

  /** ... and then every tab, carriage return and line feed. */
  function RemoveUnsafe(s: string): (r: string)
    ensures |r| <= |s|
    ensures forall i | 0 <= i < |r| :: !IsUnsafe(r[i])
    decreases |s|
  {
    if |s| == 0 then ""
    else (if IsUnsafe(s[0]) then "" else [s[0]]) + RemoveUnsafe(s[1..])
  }

  /** Tab, carriage return and line feed: what `urlsplit` removes everywhere. */
  predicate IsUnsafe(c: char) {
    c == '\t' || c == '\r' || c == '\n'
  }

  /** A single character is removed exactly when it is unsafe. */
  lemma RemoveUnsafeChar(c: char)
    ensures RemoveUnsafe([c]) == if IsUnsafe(c) then [] else [c]
  {
    assert [c][1..] == [];
  }

  /** Removal works character by character and keeps the order of the rest. */
  lemma {:induction false} RemoveUnsafeAppend(a: string, b: string)
    ensures RemoveUnsafe(a + b) == RemoveUnsafe(a) + RemoveUnsafe(b)
    decreases |a|
  {
    if |a| == 0 {
      assert a + b == b;
    } else {
      var ab := a + b;
      var head := if IsUnsafe(a[0]) then "" else [a[0]];
      assert ab[0] == a[0];
      assert ab[1..] == a[1..] + b;
      assert RemoveUnsafe(ab) == head + RemoveUnsafe(a[1..] + b);
      RemoveUnsafeAppend(a[1..], b);
      assert RemoveUnsafe(a) == head + RemoveUnsafe(a[1..]);
    }
  }


  /** A character below U+0080. `urlsplit` runs its NFKC check of the network
      location only on text that is not all ASCII. */
  predicate IsAscii(c: char) {
    c < '\U{0080}'
  }

  /** Every character of `s` from position k on is ASCII. */
  predicate AsciiFrom(s: string, k: nat) {
    forall j | k <= j < |s| :: IsAscii(s[j])
  }

  predicate IsAsciiLetter(c: char) {
    ('a' <= c <= 'z') || ('A' <= c <= 'Z')
  }

  predicate IsSchemeChar(c: char) {
    ('a' <= c <= 'z') || ('A' <= c <= 'Z') || ('0' <= c <= '9') || c == '+' || c == '-' || c == '.'
  }

  /** The first ':' in `s`, or |s|. */
  function FindColon(s: string): (i: nat)
    ensures i <= |s|
    ensures i < |s| ==> s[i] == ':'
    ensures forall j | 0 <= j < i :: s[j] != ':'
    decreases |s|
  {
    if |s| == 0 || s[0] == ':' then 0
    else
      var i := FindColon(s[1..]);
      assert forall j | 1 <= j < i + 1 :: s[j] == s[1..][j - 1];
      i + 1
  }

  predicate EndsNetloc(c: char) {
    c == '/' || c == '?' || c == '#'
  }

  /** The first '/', '?' or '#' in `s`, or |s|. */
  function FindNetlocEnd(s: string): (i: nat)
    ensures i <= |s|
    ensures i < |s| ==> EndsNetloc(s[i])
    ensures forall j | 0 <= j < i :: !EndsNetloc(s[j])
    decreases |s|
  {
    if |s| == 0 || EndsNetloc(s[0]) then 0
    else
      var i := FindNetlocEnd(s[1..]);
      assert forall j | 1 <= j < i + 1 :: s[j] == s[1..][j - 1];
      i + 1
  }

  /** The scheme of a cleaned url: the text before the first ':' when it is
      non-empty, starts with an ASCII letter and holds only scheme characters. */
  function SchemeLength(url: string): (n: nat)
    ensures n > 0 ==> n == FindColon(url) && n < |url| && url[n] == ':' && forall j | 0 <= j < n :: IsSchemeChar(url[j])
  {
    var i := FindColon(url);
    if 0 < i < |url| && IsAsciiLetter(url[0])
       && forall j | 0 <= j < i :: IsSchemeChar(url[j])
    then i else 0
  }

  /** A scheme is recognised whenever the text before the first ':' is
      non-empty, starts with an ASCII letter and holds only scheme characters. */
  lemma SchemeRecognised(url: string)
    requires 0 < FindColon(url) < |url| && IsAsciiLetter(url[0])
    requires forall j | 0 <= j < FindColon(url) :: IsSchemeChar(url[j])
    ensures SchemeLength(url) == FindColon(url)
  {
  }

  /** The network location: after the scheme, a "//" and then everything up
      to the first '/', '?' or '#'. */
  function Netloc(rest: string): (r: string)
    ensures |r| > 0 ==> |rest| >= 2 && rest[..2] == "//"
  {
    if |rest| >= 2 && rest[..2] == "//" then rest[2..][..FindNetlocEnd(rest[2..])] else ""
  }

  /** Without a leading "//" there is no network location; with one, it is the
      text after it up to the first '/', '?' or '#', or to the end. */
  lemma NetlocSpan(rest: string)
    ensures !(|rest| >= 2 && rest[..2] == "//") ==> Netloc(rest) == ""
    ensures |rest| >= 2 && rest[..2] == "//" ==>
      var r := Netloc(rest);
      && 2 + |r| <= |rest| && r == rest[2..2 + |r|]
      && (forall j | 0 <= j < |r| :: !EndsNetloc(r[j]))
      && (2 + |r| == |rest| || EndsNetloc(rest[2 + |r|]))
  {
    if |rest| >= 2 && rest[..2] == "//" {
      var r := Netloc(rest);
      assert forall j | 0 <= j < |r| :: r[j] == rest[2..][j];
    }
  }

  /** `_is_valid_url`: both scheme and netloc are non-empty, and the netloc does
      not hold an unmatched bracket (for which `urlparse` raises ValueError). */
  predicate IsValidUrl(url: string) {
    var clean := RemoveUnsafe(LStripControls(url));
    var n := SchemeLength(clean);
    var rest := if n > 0 then clean[n + 1..] else clean;
    var netloc := Netloc(rest);
    && n > 0
    && netloc != ""
    && (('[' in netloc) <==> (']' in netloc))
  }

  /** A valid url has a scheme, so its cleaned text has a ':'. */
  lemma ValidUrlHasColon(url: string)
    requires IsValidUrl(url)
    ensures ':' in RemoveUnsafe(LStripControls(url))
  {
    var clean := RemoveUnsafe(LStripControls(url));
    assert clean[SchemeLength(clean)] == ':';
  }

  lemma RemoveUnsafeKeepsPlain(s: string)
    requires forall i | 0 <= i < |s| :: !IsUnsafe(s[i])
    ensures RemoveUnsafe(s) == s
    decreases |s|
  {
    if |s| > 0 {
      RemoveUnsafeKeepsPlain(s[1..]);
    }
  }

  /** An ordinary url is valid: a scheme that starts with an ASCII letter,
      "://", and a non-empty host with no '/', '?', '#', bracket, tab or line
      break. */
  lemma OrdinaryUrlIsValid(scheme: string, host: string)
    requires |scheme| > 0 && IsAsciiLetter(scheme[0])
    requires forall j | 0 <= j < |scheme| :: IsSchemeChar(scheme[j])
    requires |host| > 0
    requires forall j | 0 <= j < |host| :: !EndsNetloc(host[j]) && !IsUnsafe(host[j]) && host[j] != '[' && host[j] != ']'
    requires forall j | 0 <= j < |host| :: IsAscii(host[j])
    ensures IsValidUrl(scheme + "://" + host)
  {
    var url := scheme + "://" + host;
    var n := |scheme|;
    assert url[n] == ':' && url[n + 1] == '/' && url[n + 2] == '/';
    assert forall j | 0 <= j < n :: url[j] == scheme[j];
    assert forall j | n + 3 <= j < |url| :: url[j] == host[j - n - 3];
    assert url[n + 3..] == host;
    assert AsciiFrom(url, n + 3);
    UrlWithAuthorityIsValid(url, n);
  }

  /** The same, stated on positions: a scheme of n characters, then "://",
      then the host. */
  lemma UrlWithAuthorityIsValid(url: string, n: nat)
    requires 0 < n && n + 3 < |url| && IsAsciiLetter(url[0])
    requires forall j | 0 <= j < n :: IsSchemeChar(url[j])
    requires url[n] == ':' && url[n + 1] == '/' && url[n + 2] == '/'
    requires forall j | n + 3 <= j < |url| :: !EndsNetloc(url[j]) && !IsUnsafe(url[j]) && url[j] != '[' && url[j] != ']'
    requires AsciiFrom(url, n + 3)
    ensures IsValidUrl(url)
  {
    NetlocAt(url, n);
    SchemeAt(url, n);
    AuthorityUrlClean(url, n);
    ValidFromParts(url, n);
  }

  /** Nothing of such a url is cleaned away. */
  lemma AuthorityUrlClean(url: string, n: nat)
    requires n < |url| && IsAsciiLetter(url[0])
    requires forall j | 0 <= j < n :: IsSchemeChar(url[j])
    requires forall j | n <= j < |url| :: !IsUnsafe(url[j])
    ensures RemoveUnsafe(LStripControls(url)) == url
  {
    SchemeCharsAreSafe(url, n);
    OrdinaryUrlClean(url);
  }

  lemma SchemeCharsAreSafe(url: string, n: nat)
    requires n <= |url|
    requires forall j | 0 <= j < n :: IsSchemeChar(url[j])
    requires forall j | n <= j < |url| :: !IsUnsafe(url[j])
    ensures forall j | 0 <= j < |url| :: !IsUnsafe(url[j])
  {
    forall i | 0 <= i < n
      ensures !IsUnsafe(url[i])
    {
      assert IsSchemeChar(url[i]);
    }
  }

  /** After "://" at position n, the host up to the end is the network location. */
  lemma NetlocAt(url: string, n: nat)
    requires n + 3 <= |url| && url[n + 1] == '/' && url[n + 2] == '/'
    requires forall j | n + 3 <= j < |url| :: !EndsNetloc(url[j]) && url[j] != '[' && url[j] != ']'
    ensures Netloc(url[n + 1..]) == url[n + 3..]
    ensures '[' !in url[n + 3..] && ']' !in url[n + 3..]
  {
    var host := url[n + 3..];
    assert forall j | 0 <= j < |host| :: host[j] == url[n + 3 + j];
    assert url[n + 1..] == "//" + host;
    NetlocOfHost(host);
  }

  /** A letter-started run of scheme characters before the first ':' is the scheme. */
  lemma SchemeAt(url: string, n: nat)
    requires 0 < n < |url| && IsAsciiLetter(url[0]) && url[n] == ':'
    requires forall j | 0 <= j < n :: IsSchemeChar(url[j])
    ensures SchemeLength(url) == n
  {
    forall j | 0 <= j < n ensures url[j] != ':' {
      assert IsSchemeChar(url[j]);
    }
    assert FindColon(url) == n;
  }

  /** Validity from its parts: nothing cleaned away, a scheme, and a non-empty
      network location without brackets. */
  lemma ValidFromParts(url: string, n: nat)
    requires 0 < n && n + 3 < |url|
    requires RemoveUnsafe(LStripControls(url)) == url
    requires SchemeLength(url) == n
    requires Netloc(url[n + 1..]) == url[n + 3..]
    requires '[' !in url[n + 3..] && ']' !in url[n + 3..]
    requires AsciiFrom(url, n + 3)
    ensures IsValidUrl(url)
  {
    var clean := RemoveUnsafe(LStripControls(url));
    assert clean == url;
    assert SchemeLength(clean) == n;
    var rest := clean[n + 1..];
    assert Netloc(rest) == url[n + 3..];
    assert url[n + 3..] != "";
  }

  /** Nothing of an ordinary url is cleaned away: a letter, then no tab or
      line break anywhere. */
  lemma OrdinaryUrlClean(url: string)
    requires |url| > 0 && IsAsciiLetter(url[0])
    requires forall j | 0 <= j < |url| :: !IsUnsafe(url[j])
    ensures RemoveUnsafe(LStripControls(url)) == url
  {
    LStripControlsKeeps(url);
    RemoveUnsafeKeepsPlain(url);
  }

  /** Text that starts above space loses nothing to the leading strip. */
  lemma LStripControlsKeeps(s: string)
    requires |s| > 0 && s[0] > ' '
    ensures LStripControls(s) == s
  {
  }

  /** After "//", a host free of '/', '?' and '#' is the whole network location. */
  lemma NetlocOfHost(host: string)
    requires forall j | 0 <= j < |host| :: !EndsNetloc(host[j])
    ensures Netloc("//" + host) == host
  {
    var rest := "//" + host;
    assert rest[..2] == "//";
    assert rest[2..] == host;
    assert FindNetlocEnd(host) == |host|;
  }

  /** A cell of the url column: its text, the hyperlink behind it, and whether
      it carries the link font. */
  datatype Cell = Cell(value: string, hyperlink: Option<string>, linkFont: bool)

  /** A cell as written by `to_excel`. */
  function PlainCell(value: string): Cell {
    Cell(value, None, false)
  }

  /** The row loop's treatment of one url cell. */
  function RewriteCell(c: Cell): Cell {
    if c.value != "" && IsValidUrl(c.value) then Cell(LinkText, Some(c.value), true) else c
  }

  /** The link text is not a url: it has no ':'. */
  lemma LinkTextIsNotUrl()
    ensures !IsValidUrl(LinkText)
  {
    assert forall i | 0 <= i < |LinkText| :: LinkText[i] != ':';
    NoColonIsNotUrl(LinkText);
  }

  /** Text without a ':' has no scheme, so it is not a url. */
  lemma NoColonIsNotUrl(s: string)
    requires forall i | 0 <= i < |s| :: s[i] != ':'
    ensures !IsValidUrl(s)
  {
    if IsValidUrl(s) {
      ValidUrlHasColon(s);
      RemoveUnsafeKeepsOnly(LStripControls(s));
    }
  }

  /** Removal only drops characters: what remains was already there. */
  lemma {:induction false} RemoveUnsafeKeepsOnly(s: string)
    ensures forall c | c in RemoveUnsafe(s) :: c in s
    decreases |s|
  {
    if |s| > 0 {
      RemoveUnsafeKeepsOnly(s[1..]);
      assert forall c | c in s[1..] :: c in s;
    }
  }

  /** A cell holding an ordinary url is rewritten: it reads `Перейти` and
      links to the url. */
  lemma OrdinaryUrlRewritten(scheme: string, host: string)
    requires |scheme| > 0 && IsAsciiLetter(scheme[0])
    requires forall j | 0 <= j < |scheme| :: IsSchemeChar(scheme[j])
    requires |host| > 0
    requires forall j | 0 <= j < |host| :: !EndsNetloc(host[j]) && !IsUnsafe(host[j]) && host[j] != '[' && host[j] != ']'
    requires forall j | 0 <= j < |host| :: IsAscii(host[j])
    ensures RewriteCell(PlainCell(scheme + "://" + host)) == Cell(LinkText, Some(scheme + "://" + host), true)
  {
    OrdinaryUrlIsValid(scheme, host);
  }

  /** Rewriting is idempotent, and a rewritten cell links to the text it replaced. */
  lemma RewriteCellIdempotent(c: Cell)
    ensures RewriteCell(RewriteCell(c)) == RewriteCell(c)
    ensures RewriteCell(c) != c ==> RewriteCell(c).hyperlink == Some(c.value) && RewriteCell(c).value == LinkText
  {
    LinkTextIsNotUrl();
  }

  /** The row loop over the url column, in place. */
  method RewriteUrlCells(cells: array<Cell>)
    modifies cells
    ensures forall i | 0 <= i < cells.Length :: cells[i] == RewriteCell(old(cells[i]))
  {
    UpdateCells(cells, RewriteCell);
  }

  /** A loop that replaces every cell `c` of `cells` by `f(c)`, one row at a time. */
  method UpdateCells(cells: array<Cell>, f: Cell -> Cell)
    modifies cells
    ensures forall i | 0 <= i < cells.Length :: cells[i] == f(old(cells[i]))
  {
    for i := 0 to cells.Length
      invariant forall k | 0 <= k < i :: cells[k] == f(old(cells[k]))
      invariant forall k | i <= k < cells.Length :: cells[k] == old(cells[k])
    {
      cells[i] := f(cells[i]);
    }
  }

  // ---------------------------------------------------------------------------
  // The report

  /** The text a listing shows in a column: prices formatted, the area as
      `show` renders a float, other columns as stored. */
  function CellText(l: Listing, column: string, areaName: string, show: real -> string): string {
    if column == AddressColumn then l.address
    else if column == CategoryColumn then l.categoryName
    else if column == areaName then show(l.area)
    else if column == PerSqmColumn then FormatPrice(Number(l.pricePerSqm))
    else if column == PriceColumn then FormatPrice(Number(l.price))
    else if column == DescriptionColumn then l.description
    else if column == UrlColumn then l.url
    else ""
  }

  /** One column's texts, one per listing. */
  function ColumnTexts(listings: seq<Listing>, column: string, areaName: string, show: real -> string): (r: seq<string>)
    ensures |r| == |listings|
  {
    seq(|listings|, i requires 0 <= i < |listings| => CellText(listings[i], column, areaName, show))
  }

  /** The url column shows each listing's url. */
  lemma UrlColumnShowsUrl(l: Listing, areaName: string, show: real -> string)
    requires areaName == SotkiColumn || areaName == SquareMetresColumn
    ensures CellText(l, UrlColumn, areaName, show) == l.url
  {
    assert UrlColumn[0] != AddressColumn[1];
    assert UrlColumn[2] != CategoryColumn[2];
    assert UrlColumn[0] != areaName[0];
    assert UrlColumn[0] != PerSqmColumn[0] && UrlColumn[0] != PriceColumn[0] && UrlColumn[0] != DescriptionColumn[0];
  }

  /** The written report: the file name's city part, the area column's name,
      the header, every column's texts, the column widths, and the url column
      after the row loop. */
  datatype Sheet = Sheet(
    cityPart: string,
    areaName: string,
    header: seq<string>,
    columns: seq<seq<string>>,
    widths: seq<int>,
    links: seq<Cell>)

  /** First position of `x` in `xs` (`list.index`), None when absent. */
  function IndexOf(xs: seq<string>, x: string): (r: Option<nat>)
    ensures r.None? <==> x !in xs
    ensures r.Some? ==> r.value < |xs| && xs[r.value] == x
    ensures r.Some? ==> forall k | 0 <= k < r.value :: xs[k] != x
    decreases |xs|
  {
    if |xs| == 0 then None
    else if xs[0] == x then Some(0)
    else match IndexOf(xs[1..], x)
      case None => None
      case Some(i) => Some(i + 1)
  }

  /** The shown texts of every column of `header`. */
  function SheetColumns(listings: seq<Listing>, header: seq<string>, areaName: string, show: real -> string): (r: seq<seq<string>>)
    ensures |r| == |header|
    ensures forall c | 0 <= c < |header| :: r[c] == ColumnTexts(listings, header[c], areaName, show)
  {
    seq(|header|, c requires 0 <= c < |header| => ColumnTexts(listings, header[c], areaName, show))
  }

  /** The url column's cells as `to_excel` writes them. */
  method PlainCells(texts: seq<string>) returns (cells: array<Cell>)
    ensures fresh(cells)
    ensures cells[..] == seq(|texts|, i requires 0 <= i < |texts| => PlainCell(texts[i]))
  {
    cells := new Cell[|texts|](i requires 0 <= i < |texts| => PlainCell(texts[i]));
  }

  /** The styling pass over a written sheet: the width loop, then the row loop
      over the url column. */
  method StyleSheet(header: seq<string>, columns: seq<seq<string>>, urls: seq<string>)
    returns (widths: seq<int>, links: seq<Cell>)
    requires |columns| == |header|
    ensures |widths| == |header|
    ensures forall c | 0 <= c < |header| :: widths[c] == ColumnWidth(header[c], columns[c])
    ensures |links| == |urls|
    ensures forall i | 0 <= i < |urls| :: links[i] == RewriteCell(PlainCell(urls[i]))
  {
    widths := ColumnWidths(header, columns);
    var cells := PlainCells(urls);
    RewriteUrlCells(cells);
    links := cells[..];
  }

  /** The area column's name for a data frame of listing records, whose
      `category_name` column always exists and holds no missing value. */
  method ListingsAreaColumn(listings: seq<Listing>) returns (areaName: string)
    ensures areaName == SotkiColumn <==> exists i | 0 <= i < |listings| :: MentionsLand(listings[i].categoryName)
    ensures areaName == SotkiColumn || areaName == SquareMetresColumn
  {
    var names := seq(|listings|, i requires 0 <= i < |listings| => Some(listings[i].categoryName));
    areaName := AreaColumnName(Some(names));
    assert forall i | 0 <= i < |listings| :: names[i].Some? && names[i].value == listings[i].categoryName;
  }

  /** `create_excel_report`: None for no listings; otherwise the sheet with the
      selected columns, their widths, and every url cell rewritten into a link. */
  method CreateExcelReport(listings: seq<Listing>, city: string, show: real -> string) returns (r: Option<Sheet>)
    ensures r.None? <==> |listings| == 0
    ensures r.Some? ==> r.value.cityPart == CityPart(city)
    ensures r.Some? ==> r.value.header == WantedColumns(r.value.areaName)
    ensures r.Some? ==> (r.value.areaName == SotkiColumn <==>
      exists i | 0 <= i < |listings| :: MentionsLand(listings[i].categoryName))
    ensures r.Some? ==> r.value.areaName == SotkiColumn || r.value.areaName == SquareMetresColumn
    ensures r.Some? ==> r.value.columns == SheetColumns(listings, r.value.header, r.value.areaName, show)
    ensures r.Some? ==> |r.value.widths| == |r.value.header|
    ensures r.Some? ==> forall c | 0 <= c < |r.value.header| ::
      r.value.widths[c] == ColumnWidth(r.value.header[c], r.value.columns[c])
    ensures r.Some? ==> |r.value.links| == |listings|
    ensures r.Some? ==> forall i | 0 <= i < |listings| :: r.value.links[i] == RewriteCell(PlainCell(listings[i].url))
  {
    if |listings| == 0 {
      return None;
    }
    var areaName := ListingsAreaColumn(listings);
    ListingSheetColumns(areaName);
    var header := ReportColumns(ListingKeys, areaName);
    var columns := SheetColumns(listings, header, areaName, show);
    var urlIndex := IndexOf(header, UrlColumn);
    assert header[6] == UrlColumn;
    var urls := columns[urlIndex.value];
    forall i | 0 <= i < |listings|
      ensures urls[i] == listings[i].url
    {
      UrlColumnShowsUrl(listings[i], areaName, show);
    }
    var widths, links := StyleSheet(header, columns, urls);
    r := Some(Sheet(CityPart(city), areaName, header, columns, widths, links));
  }
}

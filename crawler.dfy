/** The target locator of `crawler.js`: the search over result pages, the
    sponsored-entry filter, the matching of the target code against the ids
    in an entry's link, and the helpers that build the record of the matched
    entry.

    The browser is not modelled. A result page is the sequence of its
    `#product-list > li[data-id]` entries, each given by what the DOM
    queries of `findProductInPage` read from it; a search session is what
    the navigation, the page checks and the pagination buttons turned out
    to be. */
module Crawler {
  import opened Wrappers
  import opened Strings
  import Config
  import Utils

  // ================================================================ data

  /** What `toNumber` yields: a whole number when only digits are left
      after stripping, otherwise the stripped text that `Number` reads as a
      decimal (or as `NaN`), which the model keeps unparsed. */
  datatype Num = Int(n: nat) | Decimal(text: string)

  /** An `<img>` element: its `alt`, `src` and `srcset` attributes, `None`
      where the attribute is absent. */
  datatype Img = Img(alt: Option<string>, src: Option<string>, srcset: Option<string>)

  /** One `#product-list > li[data-id]` entry of a result page, as the DOM
      queries of `findProductInPage` see it. */
  datatype Entry = Entry(
    /** `dataset.id`. */
    dataId: string,
    /** An element whose class contains `AdMark` is present. */
    adMark: bool,
    /** The `href` of the first `<a>`; `None` when the entry has no link. */
    href: Option<string>,
    /** The trimmed text of the `soldoutText` element; `None` when absent. */
    soldout: Option<string>,
    /** The first `<img>` of the entry. */
    img: Option<Img>,
    /** The rating, kept as the text `parseFloat` reads. */
    rating: Option<string>,
    /** The review count. */
    reviewCount: Option<nat>,
    /** The `pickText` results for the base price, the discount rate and
        the sale price (trimmed, non-empty, or `None`). */
    basePriceText: Option<string>,
    discountText: Option<string>,
    salePriceText: Option<string>,
    /** The `textContent` of every `span, div, p, strong, em` of the price
        area, in document order. */
    priceNodes: seq<string>,
    /** The `innerText` of the price area (or of the entry). */
    priceAreaText: string,
    /** The `innerText` of the `DeliveryInfo` element, `None` when absent. */
    deliveryInner: Option<string>,
    /** The `innerText` of the entry. */
    entryText: string,
    /** The trimmed `textContent` of the `DeliveryInfo` element. */
    deliveryText: Option<string>,
    /** One of the two fixed "coupang pick" badge selectors matched. */
    pickBadge: bool,
    /** The `src` of every `<img>` of the entry (`""` when absent). */
    imgSrcs: seq<string>,
    /** The `cash-benefit` span text and image `alt`. */
    benefitText: Option<string>,
    benefitAlt: Option<string>,
    /** The `<img>` elements inside `ImageBadge` elements. */
    badgeImgs: seq<Img>)

  /** The record `searchCoupang` returns; `rank` 0 means "not found". */
  datatype ProductRecord = ProductRecord(
    rank: nat,
    productName: Option<string>,
    thumbnailUrl: Option<string>,
    rating: Option<string>,
    reviewCount: Option<nat>,
    beforePrice: Option<Num>,
    salePrice: Option<Num>,
    discountPercent: Option<Num>,
    unitLabel: Option<string>,
    unitPrice: Option<nat>,
    freeShip: bool,
    freeReturn: bool,
    coupangPick: bool,
    discountTypes: seq<string>,
    pointBenefit: Option<string>,
    deliveryInfo: Option<string>,
    deliveryKeys: seq<string>,
    isSoldout: bool,
    soldoutText: Option<string>,
    productUrl: Option<string>)

  /** The record `searchCoupang` starts from and returns when nothing is
      found. */
  const EmptyRecord: ProductRecord := ProductRecord(
    0, None, None, None, None, None, None, None, None, None,
    false, false, false, [], None, None, [], false, None, None)

  // ================================================================ toNumber

  predicate IsNumericChar(c: char)
  {
    IsDigit(c) || c == '.'
  }

  /** `s.replace(/[^\d.]/g, '')`. */
  function KeepNumeric(s: string): (r: string)
    ensures forall k :: 0 <= k < |r| ==> IsNumericChar(r[k])
    decreases |s|
  {
    if |s| == 0 then []
    else KeepNumeric(s[..|s| - 1]) + (if IsNumericChar(s[|s| - 1]) then [s[|s| - 1]] else [])
  }

  /** `toNumber`: a falsy text gives `null`; otherwise everything but digits
      and dots is dropped and the rest read as a number. */
  function ToNumber(s: Option<string>): (r: Option<Num>)
    ensures r.None? <==> !Truthy(s)
  {
    if !Truthy(s) then None
    else
      var t := KeepNumeric(s.value);
      if '.' in t then Some(Decimal(t)) else Some(Int(DigitsValue(t)))
  }

  /** Without dots, keeping the numeric characters keeps the digits. */
  lemma {:induction false} KeepNumericNoDot(s: string)
    requires '.' !in s
    ensures KeepNumeric(s) == KeepDigits(s)
    decreases |s|
  {
    if |s| > 0 {
      assert s[..|s| - 1] + [s[|s| - 1]] == s;
      var init := s[..|s| - 1];
      assert '.' !in init by {
        forall k | 0 <= k < |init| ensures init[k] != '.' {
          assert init[k] == s[k];
        }
      }
      assert s[|s| - 1] in s;
      KeepNumericNoDot(s[..|s| - 1]);
    }
  }

  /** A price text without a decimal point is read as the number its digits
      spell, whatever separators and units surround them (`"1,770원"` is
      1770). */
  lemma ToNumberReadsDigits(s: string)
    requires s != "" && '.' !in s
    ensures ToNumber(Some(s)) == Some(Int(DigitsValue(KeepDigits(s))))
  {
    KeepNumericNoDot(s);
  }

  /** A written number is read back. */
  lemma ToNumberOfDecimal(n: nat)
    ensures ToNumber(Some(DecimalDigits(n))) == Some(Int(n))
  {
    var s := DecimalDigits(n);
    assert '.' !in s by {
      forall k | 0 <= k < |s| ensures s[k] != '.' {
        assert IsDigit(s[k]);
      }
    }
    KeepNumericNoDot(s);
    KeepDigitsOfDigits(s);
    DigitsValueOfDecimal(n);
  }

  // ================================================================ icons

  /** `pickUrlFromImg`: the `src` when truthy, else the URL of the last
      `srcset` candidate, else `""`. */
  function PickUrlFromImg(img: Img): (r: string)
    ensures Truthy(img.src) ==> r == img.src.value
    ensures !Truthy(img.src) ==> ' ' !in r && ',' !in r
  {
    if Truthy(img.src) then img.src.value
    else if !Truthy(img.srcset) then ""
    else LastCandidateUrl(img.srcset.value)
  }

  /** The URL of the last candidate of a `srcset`: the text after the last
      comma, trimmed, up to its first space. */
  function LastCandidateUrl(srcset: string): (r: string)
    ensures ' ' !in r && ',' !in r
  {
    var last := Trim(AfterLast(srcset, ','));
    var r := BeforeFirst(last, ' ');
    assert ',' !in r by {
      assert forall k :: 0 <= k < |r| ==> r[k] == last[k];
      AfterLastNoSep(srcset, last);
    }
    r
  }

  /** Trimming the last part of a `srcset` keeps it free of commas. */
  lemma AfterLastNoSep(srcset: string, last: string)
    requires last == Trim(AfterLast(srcset, ','))
    ensures ',' !in last
  {
    var a := AfterLast(srcset, ',');
    var b := TrimStart(a);
    assert forall k :: 0 <= k < |b| ==> b[k] == a[|a| - |b| + k];
    assert forall k :: 0 <= k < |last| ==> last[k] == b[k];
  }

  /** With no `src`, the URL of the last candidate of a `srcset` is
      picked: `srcset` ends with a candidate `<sp><url><rest>` after its last
      comma (or has no comma), where `rest` is empty, white space, or a
      space followed by a descriptor. This covers `a.png`, `a.png 2x` and
      `a.png 1x, b.png 2x ` alike. */
  lemma PickUrlLastCandidate(img: Img, front: string, sp: string, url: string, rest: string)
    requires !Truthy(img.src)
    requires img.srcset == Some(sp + url + rest)
      || img.srcset == Some(front + [','] + (sp + url + rest))
    requires forall k :: 0 <= k < |sp| ==> IsSpace(sp[k])
    requires |url| > 0 && forall k :: 0 <= k < |url| ==> !IsSpace(url[k]) && url[k] != ','
    requires ',' !in rest
    requires rest == [] || rest[0] == ' ' || forall k :: 0 <= k < |rest| ==> IsSpace(rest[k])
    ensures PickUrlFromImg(img) == url
  {
    var srcset := img.srcset.value;
    assert |srcset| >= |url| > 0;
    LastCandidateOf(srcset, front, sp, url, rest);
  }

  /** The same for the `srcset` text itself. */
  lemma LastCandidateOf(srcset: string, front: string, sp: string, url: string, rest: string)
    requires srcset == sp + url + rest || srcset == front + [','] + (sp + url + rest)
    requires forall k :: 0 <= k < |sp| ==> IsSpace(sp[k])
    requires |url| > 0 && forall k :: 0 <= k < |url| ==> !IsSpace(url[k]) && url[k] != ','
    requires ',' !in rest
    requires rest == [] || rest[0] == ' ' || forall k :: 0 <= k < |rest| ==> IsSpace(rest[k])
    ensures LastCandidateUrl(srcset) == url
  {
    LastPartOfSrcset(srcset, front, sp, url, rest);
    CandidateUrl(sp, url, rest);
  }

  /** The candidate after the last comma of a `srcset` is the whole text
      after that comma, or the whole `srcset` when there is no comma. */
  lemma LastPartOfSrcset(srcset: string, front: string, sp: string, url: string, rest: string)
    requires srcset == sp + url + rest || srcset == front + [','] + (sp + url + rest)
    requires forall k :: 0 <= k < |sp| ==> IsSpace(sp[k])
    requires forall k :: 0 <= k < |url| ==> url[k] != ','
    requires ',' !in rest
    ensures AfterLast(srcset, ',') == sp + url + rest
  {
    var tail := sp + url + rest;
    assert ',' !in sp + url by {
      forall k | 0 <= k < |sp| ensures sp[k] != ',' {
        assert IsSpace(sp[k]);
      }
      NotInConcat(sp, url, ',');
    }
    NotInConcat(sp + url, rest, ',');
    if srcset == tail {
      AfterLastNone(tail, ',');
    } else {
      AfterLastConcat(front, ',', tail);
    }
  }

  /** Trimming a candidate `<sp><url><rest>` and cutting it at its first
      space leaves the URL. */
  lemma CandidateUrl(sp: string, url: string, rest: string)
    requires forall k :: 0 <= k < |sp| ==> IsSpace(sp[k])
    requires |url| > 0 && forall k :: 0 <= k < |url| ==> !IsSpace(url[k]) && url[k] != ','
    requires rest == [] || rest[0] == ' ' || forall k :: 0 <= k < |rest| ==> IsSpace(rest[k])
    ensures BeforeFirst(Trim(sp + url + rest), ' ') == url
  {
    var ur := url + rest;
    assert sp + url + rest == sp + ur;
    TrimStartSpaces(sp, ur);
    TrimEndAfter(url, rest);
    var e := TrimEnd(rest);
    assert Trim(sp + ur) == url + e;
    CutAtSpace(url, rest, e);
  }

  /** Cutting `<url><e>` at its first space leaves the URL, where `e` is
      what trimming the end of `rest` leaves. */
  lemma CutAtSpace(url: string, rest: string, e: string)
    requires forall k :: 0 <= k < |url| ==> !IsSpace(url[k])
    requires rest == [] || rest[0] == ' ' || forall k :: 0 <= k < |rest| ==> IsSpace(rest[k])
    requires e == TrimEnd(rest)
    ensures BeforeFirst(url + e, ' ') == url
  {
    assert ' ' !in url by {
      forall k | 0 <= k < |url| ensures url[k] != ' ' {
        assert !IsSpace(url[k]);
      }
    }
    if e == [] {
      assert url + e == url;
      BeforeFirstNone(url, ' ');
    } else if rest[0] == ' ' {
      assert IsPrefix(e, rest);
      assert e[0] == rest[..|e|][0];
      SpaceCut(url, e);
    } else {
      TrimEndSpaces(rest);
    }
  }

  /** A text that starts with a space is cut off entirely. */
  lemma SpaceCut(url: string, e: string)
    requires ' ' !in url && |e| > 0 && e[0] == ' '
    ensures BeforeFirst(url + e, ' ') == url
  {
    assert url + e == url + [' '] + e[1..];
    BeforeFirstConcat(url, ' ', e[1..]);
  }

  /** Trailing white space after a text that ends with something else is
      all that `trimEnd` removes. */
  lemma {:induction false} TrimEndAfter(u: string, rest: string)
    requires |u| > 0 && !IsSpace(u[|u| - 1])
    ensures TrimEnd(u + rest) == u + TrimEnd(rest)
    decreases |rest|
  {
    if |rest| == 0 {
      assert u + rest == u;
    } else if IsSpace(rest[|rest| - 1]) {
      assert (u + rest)[..|u + rest| - 1] == u + rest[..|rest| - 1];
      TrimEndAfter(u, rest[..|rest| - 1]);
    }
  }

  /** White space alone trims to nothing. */
  lemma {:induction false} TrimEndSpaces(rest: string)
    requires forall k :: 0 <= k < |rest| ==> IsSpace(rest[k])
    ensures TrimEnd(rest) == []
    decreases |rest|
  {
    if |rest| > 0 {
      TrimEndSpaces(rest[..|rest| - 1]);
    }
  }

  /** A character in neither part is not in their concatenation. */
  lemma NotInConcat(a: string, b: string, c: char)
    requires c !in a && c !in b
    ensures c !in a + b
  {
    forall k | 0 <= k < |a + b| ensures (a + b)[k] != c {
      if k < |a| { assert (a + b)[k] == a[k]; } else { assert (a + b)[k] == b[k - |a|]; }
    }
  }

  /** `iconKeyFromUrl`: the file name of the URL, without the query string,
      cut at the first `@`; `null` for an empty URL. */
  function IconKeyFromUrl(url: string): (r: Option<string>)
    ensures r.None? <==> url == ""
    ensures r.Some? ==> '?' !in r.value && '/' !in r.value && '@' !in r.value
  {
    if url == "" then None
    else
      var path := BeforeFirst(url, '?');
      var file := AfterLast(path, '/');
      var key := BeforeFirst(file, '@');
      assert forall k :: 0 <= k < |key| ==> key[k] == file[k];
      assert forall k :: 0 <= k < |file| ==> file[k] == path[|path| - |file| + k];
      Some(key)
  }

  /** An icon URL such as `//img/badge/rocketwow-bi-16@2x.png?v=1` gives the
      key `rocketwow-bi-16`. */
  lemma IconKeyOfBadgeUrl(dir: string, key: string, suffix: string, query: string)
    requires '?' !in dir
    requires '?' !in key && '/' !in key && '@' !in key
    requires '?' !in suffix && '/' !in suffix
    ensures IconKeyFromUrl(dir + ['/'] + key + ['@'] + suffix + ['?'] + query) == Some(key)
  {
    var file := key + ['@'] + suffix;
    var path := dir + ['/'] + file;
    var url := path + ['?'] + query;
    assert url == dir + ['/'] + key + ['@'] + suffix + ['?'] + query;
    assert '?' !in path by {
      forall k | 0 <= k < |path| ensures path[k] != '?' {
        if k < |dir| { assert path[k] == dir[k]; }
        else if k == |dir| { }
        else if k < |dir| + 1 + |key| { assert path[k] == key[k - |dir| - 1]; }
        else if k > |dir| + 1 + |key| { assert path[k] == suffix[k - |dir| - 2 - |key|]; }
      }
    }
    assert '/' !in file by {
      forall k | 0 <= k < |file| ensures file[k] != '/' {
        if k < |key| { assert file[k] == key[k]; }
        else if k > |key| { assert file[k] == suffix[k - |key| - 1]; }
      }
    }
    BeforeFirstConcat(path, '?', query);
    assert dir + ['/'] + file == path;
    AfterLastConcat(dir, '/', file);
    BeforeFirstConcat(key, '@', suffix);
  }

  /** `imgs.map(img => iconKeyFromUrl(pickUrlFromImg(img))).filter(Boolean)`. */
  function DeliveryKeys(imgs: seq<Img>): (r: seq<string>)
    ensures |r| <= |imgs|
    ensures forall k :: 0 <= k < |r| ==> r[k] != ""
    decreases |imgs|
  {
    if |imgs| == 0 then []
    else
      var key := IconKeyFromUrl(PickUrlFromImg(imgs[0]));
      (if Truthy(key) then [key.value] else []) + DeliveryKeys(imgs[1..])
  }

  /** When every badge image yields a non-empty key, the keys are exactly
      those of the images, in order. */
  lemma {:induction false} DeliveryKeysAll(imgs: seq<Img>)
    requires forall k :: 0 <= k < |imgs| ==> Truthy(IconKeyFromUrl(PickUrlFromImg(imgs[k])))
    ensures |DeliveryKeys(imgs)| == |imgs|
    ensures forall k :: 0 <= k < |imgs| ==>
      Some(DeliveryKeys(imgs)[k]) == IconKeyFromUrl(PickUrlFromImg(imgs[k]))
    decreases |imgs|
  {
    if |imgs| > 0 {
      assert forall k :: 0 <= k < |imgs| - 1 ==> imgs[1..][k] == imgs[k + 1];
      DeliveryKeysAll(imgs[1..]);
    }
  }

  /** A badge image without a usable URL contributes no key. */
  lemma {:induction false} DeliveryKeysSkip(a: seq<Img>, img: Img, b: seq<Img>)
    requires PickUrlFromImg(img) == ""
    ensures DeliveryKeys(a + [img] + b) == DeliveryKeys(a + b)
    decreases |a|
  {
    if |a| == 0 {
      assert a + [img] + b == [img] + b;
      assert ([img] + b)[1..] == b;
      assert a + b == b;
    } else {
      assert (a + [img] + b)[0] == a[0] && (a + b)[0] == a[0];
      assert (a + [img] + b)[1..] == a[1..] + [img] + b;
      assert (a + b)[1..] == a[1..] + b;
      DeliveryKeysSkip(a[1..], img, b);
    }
  }

  // ================================================================ unit price

  /** The unit price found in a price text: the label ending in `당` and the
      price with its commas removed. */
  datatype UnitInfo = UnitInfo(labelText: string, price: nat)

  predicate IsPriceChar(c: char)
  {
    IsDigit(c) || c == ','
  }

  /** `\s*` from `k`: the end of the run of white space starting there. */
  function SkipSpaces(t: string, k: nat): (e: nat)
    requires k <= |t|
    ensures k <= e <= |t|
    decreases |t| - k
  {
    if k < |t| && IsSpace(t[k]) then SkipSpaces(t, k + 1) else k
  }

  /** `[\d,]*` from `k`: the end of the run of digits and commas. */
  function SkipPriceChars(t: string, k: nat): (e: nat)
    requires k <= |t|
    ensures k <= e <= |t|
    decreases |t| - k
  {
    if k < |t| && IsPriceChar(t[k]) then SkipPriceChars(t, k + 1) else k
  }

  /** The tail `\s*([\d,]+)\s*원\)` of the unit pattern, read from `k`: the
      price text when it matches. White space, digits and `원` are disjoint,
      so the greedy runs are the only way it can match. */
  function PriceTail(t: string, k: nat): (r: Option<string>)
    requires k <= |t|
  {
    var a := SkipSpaces(t, k);
    var b := SkipPriceChars(t, a);
    var c := SkipSpaces(t, b);
    if a < b && c + 1 < |t| && t[c] == '원' && t[c + 1] == ')' then Some(t[a..b]) else None
  }

  /** `Number(text.replace(/,/g, ''))` for a run of digits and commas. */
  function PriceValue(text: string): nat
  {
    DigitsValue(KeepDigits(text))
  }

  /** Where the lazy label `([^()]*?당)` of a match stops, and the price
      text read after it. */
  datatype LabelMatch = LabelMatch(end: nat, price: string)

  /** The end of the lazy label of a match whose `(` comes before `j`: the
      first `당` at or after `j`, before any parenthesis, that the price
      tail follows. */
  function LabelEnd(t: string, j: nat): (r: Option<LabelMatch>)
    requires j <= |t|
    ensures r.Some? ==> j <= r.value.end < |t|
    decreases |t| - j
  {
    if j == |t| || t[j] == '(' || t[j] == ')' then None
    else if t[j] == '당' && PriceTail(t, j + 1).Some? then Some(LabelMatch(j, PriceTail(t, j + 1).value))
    else LabelEnd(t, j + 1)
  }

  /** The label stops at a `당` that the price tail follows, and no
      parenthesis comes before it. */
  lemma {:induction false} LabelEndMeaning(t: string, j: nat)
    requires j <= |t|
    ensures var r := LabelEnd(t, j);
      r.Some? ==> (t[r.value.end] == '당' && PriceTail(t, r.value.end + 1) == Some(r.value.price) &&
        forall m :: j <= m <= r.value.end ==> t[m] != '(' && t[m] != ')')
    decreases |t| - j
  {
    if j < |t| && t[j] != '(' && t[j] != ')' {
      if t[j] != '당' || PriceTail(t, j + 1).None? {
        LabelEndMeaning(t, j + 1);
      }
    }
  }

  /** `t.match(/\(([^()]*?당)\s*([\d,]+)\s*원\)/)`, searching for the
      opening parenthesis from `i` on: the label (with its `당`) and the price
      of the leftmost match. */
  function MatchFrom(t: string, i: nat): (r: Option<UnitInfo>)
    requires i <= |t|
    decreases |t| - i
  {
    if i == |t| then None
    else if t[i] == '(' && LabelEnd(t, i + 1).Some? then
      var l := LabelEnd(t, i + 1).value;
      Some(UnitInfo(t[i + 1..l.end + 1], PriceValue(l.price)))
    else MatchFrom(t, i + 1)
  }

  /** A label read by the unit pattern ends in `당` and holds no
      parenthesis. */
  lemma {:induction false} MatchFromLabel(t: string, i: nat)
    requires i <= |t|
    ensures MatchFrom(t, i).Some? ==> var l := MatchFrom(t, i).value.labelText;
      |l| > 0 && l[|l| - 1] == '당' && '(' !in l && ')' !in l
    decreases |t| - i
  {
    if i < |t| {
      if t[i] == '(' && LabelEnd(t, i + 1).Some? {
        LabelEndMeaning(t, i + 1);
        LabelSlice(t, i + 1, LabelEnd(t, i + 1).value.end);
      } else {
        MatchFromLabel(t, i + 1);
      }
    }
  }

  /** The slice from `j` to a label end `e` (inclusive). */
  lemma LabelSlice(t: string, j: nat, e: nat)
    requires j <= e < |t| && t[e] == '당'
    requires forall m :: j <= m <= e ==> t[m] != '(' && t[m] != ')'
    ensures var l := t[j..e + 1]; |l| > 0 && l[|l| - 1] == '당' && '(' !in l && ')' !in l
  {
    var l := t[j..e + 1];
    assert forall m :: 0 <= m < |l| ==> l[m] == t[j + m];
  }

  /** The text of a node as `findUnitInfo` reads it: white-space runs
      collapsed to one space, then trimmed. */
  function Normalize(s: string): string
  {
    Trim(CollapseSpaces(s))
  }

  /** The unit information of one node text. */
  function UnitInNode(node: string): Option<UnitInfo>
  {
    var t := Normalize(node);
    if t == "" then None else MatchFrom(t, 0)
  }

  /** The unit information of the first node that has any. */
  function UnitInfoOf(nodes: seq<string>): Option<UnitInfo>
    decreases |nodes|
  {
    if |nodes| == 0 then None
    else if UnitInNode(nodes[0]).Some? then UnitInNode(nodes[0])
    else UnitInfoOf(nodes[1..])
  }

  /** `findUnitInfo`: the unit label and price of the first node of the
      price area whose text matches the unit pattern, or `null`. */
  method FindUnitInfo(nodes: seq<string>) returns (r: Option<UnitInfo>)
    ensures r == UnitInfoOf(nodes)
    ensures r.Some? <==> exists k :: 0 <= k < |nodes| && UnitInNode(nodes[k]).Some?
    ensures r.Some? ==>
      exists k :: 0 <= k < |nodes| && r == UnitInNode(nodes[k]) &&
        (forall m :: 0 <= m < k ==> UnitInNode(nodes[m]).None?)
  {
    var i := 0;
    while i < |nodes|
      invariant 0 <= i <= |nodes|
      invariant UnitInfoOf(nodes) == UnitInfoOf(nodes[i..])
      invariant forall m :: 0 <= m < i ==> UnitInNode(nodes[m]).None?
    {
      assert nodes[i..][0] == nodes[i];
      assert nodes[i..][1..] == nodes[i + 1..];
      var t := Normalize(nodes[i]);
      if t != "" {
        var m := MatchFrom(t, 0);
        if m.Some? {
          return m;
        }
      }
      i := i + 1;
    }
    return None;
  }

  /** Scanning past label characters that are neither parentheses nor
      `당`. */
  lemma {:induction false} LabelEndSkips(t: string, j: nat, e: nat)
    requires j <= e <= |t|
    requires forall m :: j <= m < e ==> t[m] != '(' && t[m] != ')' && t[m] != '당'
    ensures LabelEnd(t, j) == LabelEnd(t, e)
    decreases e - j
  {
    if j < e {
      LabelEndSkips(t, j + 1, e);
    }
  }

  /** A unit note `(<label>당 <price>원)`, whose label holds no parenthesis
      and no other `당`, is read as that label (with its `당`) and the price
      with its commas dropped. */
  lemma UnitNoteRead(name: string, price: string)
    requires '(' !in name && ')' !in name && '당' !in name
    requires |price| > 0 && forall m :: 0 <= m < |price| ==> IsPriceChar(price[m])
    ensures MatchFrom("(" + name + "당 " + price + "원)", 0)
      == Some(UnitInfo(name + "당", PriceValue(price)))
  {
    NoteLayout(name, price);
    NoteRead("(" + name + "당 " + price + "원)", name, price);
  }

  /** A text laid out as a unit note is read as its label and price. */
  lemma NoteRead(t: string, name: string, price: string)
    requires '(' !in name && ')' !in name && '당' !in name
    requires |price| > 0 && forall m :: 0 <= m < |price| ==> IsPriceChar(price[m])
    requires var n := |name|;
      |t| == n + |price| + 5 && t[0] == '(' && t[1..n + 1] == name &&
      t[n + 1] == '당' && t[n + 2] == ' ' && t[1..n + 2] == name + "당" &&
      t[n + 3..n + 3 + |price|] == price &&
      t[n + 3 + |price|] == '원' && t[n + 4 + |price|] == ')'
    ensures MatchFrom(t, 0) == Some(UnitInfo(name + "당", PriceValue(price)))
  {
    var n := |name|;
    forall m | 1 <= m < n + 1 ensures t[m] != '(' && t[m] != ')' && t[m] != '당' {
      assert t[m] == t[1..n + 1][m - 1];
    }
    PriceTailRead(t, n + 2, price);
    LabelAt(t, 0, n + 1, price);
  }

  /** Where the parts of a unit note sit in its text. */
  lemma NoteLayout(name: string, price: string)
    ensures var t := "(" + name + "당 " + price + "원)"; var n := |name|;
      |t| == n + |price| + 5 && t[0] == '(' && t[1..n + 1] == name &&
      t[n + 1] == '당' && t[n + 2] == ' ' && t[1..n + 2] == name + "당" &&
      t[n + 3..n + 3 + |price|] == price &&
      t[n + 3 + |price|] == '원' && t[n + 4 + |price|] == ')'
  {
    var n := |name|;
    var a := "(" + name;
    var b := a + "당 ";
    var c := b + price;
    var t := c + "원)";
    assert t[..|c|] == c && c[..|b|] == b && b[..|a|] == a;
    assert t[1..n + 2] == b[1..n + 2];
    assert t[n + 3..n + 3 + |price|] == c[|b|..];
  }

  /** The tail ` <price>원)` at `k` reads as the price text. */
  lemma PriceTailRead(t: string, k: nat, price: string)
    requires k + |price| + 2 < |t| && IsSpace(t[k])
    requires |price| > 0 && forall m :: 0 <= m < |price| ==> IsPriceChar(price[m])
    requires t[k + 1..k + 1 + |price|] == price
    requires t[k + 1 + |price|] == '원' && t[k + 2 + |price|] == ')'
    ensures PriceTail(t, k) == Some(price)
  {
    var e := k + 1 + |price|;
    assert t[k + 1] == price[0];
    assert SkipSpaces(t, k + 1) == k + 1;
    forall m | k + 1 <= m < e ensures IsPriceChar(t[m]) {
      assert t[m] == price[m - k - 1];
    }
    SkipPriceRun(t, k + 1, e);
    assert SkipSpaces(t, e) == e;
  }

  /** A `(` at `i`, a label free of parentheses and `당` up to the `당` at
      `e`, and a price tail after it: the match starts at `i`. */
  lemma LabelAt(t: string, i: nat, e: nat, price: string)
    requires i < e < |t| && t[i] == '('
    requires forall m :: i + 1 <= m < e ==> t[m] != '(' && t[m] != ')' && t[m] != '당'
    requires t[e] == '당' && PriceTail(t, e + 1) == Some(price)
    ensures MatchFrom(t, i) == Some(UnitInfo(t[i + 1..e + 1], PriceValue(price)))
  {
    LabelEndSkips(t, i + 1, e);
    LabelEndAt(t, e, price);
  }

  lemma LabelEndAt(t: string, e: nat, price: string)
    requires e < |t| && t[e] == '당' && PriceTail(t, e + 1) == Some(price)
    ensures LabelEnd(t, e) == Some(LabelMatch(e, price))
  {
  }

  lemma {:induction false} SkipPriceRun(t: string, k: nat, e: nat)
    requires k <= e < |t| && !IsPriceChar(t[e])
    requires forall m :: k <= m < e ==> IsPriceChar(t[m])
    ensures SkipPriceChars(t, k) == e
    decreases e - k
  {
    if k < e {
      SkipPriceRun(t, k + 1, e);
    }
  }

  /** The note `(1세트당 1,770원)` gives the label `1세트당` and the price
      1770. */
  lemma UnitNoteExample()
    ensures MatchFrom("(1세트당 1,770원)", 0) == Some(UnitInfo("1세트당", 1770))
  {
    UnitNoteRead("1세트", "1,770");
    assert "(" + "1세트" + "당 " + "1,770" + "원)" == "(1세트당 1,770원)";
    assert "1세트" + "당" == "1세트당";
    PriceWithComma();
  }

  /** `1,770` is read as 1770. */
  lemma PriceWithComma()
    ensures PriceValue("1,770") == 1770
  {
    KeepDigitsExample();
    DigitsValueOfDecimal(1770);
    assert DecimalDigits(1770) == "1770";
  }

  lemma KeepDigitsExample()
    ensures KeepDigits("1,770") == "1770"
  {
    var head, rest := "1,", "770";
    assert "1,770" == head + rest;
    KeepDigitsAppend(head, rest);
    KeepDigitsOfDigits(rest);
    KeepDigitsLeadingComma();
  }

  lemma KeepDigitsLeadingComma()
    ensures KeepDigits("1,") == "1"
  {
    var s := "1,";
    assert s[..1] == "1" && s[1] == ',';
    KeepDigitsOfDigits("1");
  }

  // ================================================================ discounts

  const DiscountKeywords: seq<string> := ["와우할인", "쿠폰할인"]

  /** `detectDiscountTypes`: the discount keywords that occur in the price
      area's text, in the fixed order of `DiscountKeywords`. */
  function DiscountTypes(text: string): (r: seq<string>)
    ensures "와우할인" in r <==> Contains(text, "와우할인")
    ensures "쿠폰할인" in r <==> Contains(text, "쿠폰할인")
    ensures forall k :: 0 <= k < |r| ==> r[k] in DiscountKeywords
    ensures forall k, m :: 0 <= k < m < |r| ==> r[k] != r[m]
    ensures |r| == 2 ==> r == DiscountKeywords
  {
    (if Contains(text, "와우할인") then ["와우할인"] else [])
    + (if Contains(text, "쿠폰할인") then ["쿠폰할인"] else [])
  }

  // ================================================================ other fields

  /** `/coupick/i.test(src)` for some image. */
  predicate AnyCoupick(srcs: seq<string>)
    decreases |srcs|
  {
    |srcs| > 0 && (Contains(Lower(srcs[0]), "coupick") || AnyCoupick(srcs[1..]))
  }

  /** The "coupang pick" flag: one of the badge selectors, or an image whose
      `src` holds `coupick` in any letter case. */
  predicate CoupangPick(e: Entry)
  {
    e.pickBadge || AnyCoupick(e.imgSrcs)
  }

  /** The pick flag is set when any image source mentions `coupick`, in any
      letter case. */
  lemma {:induction false} CoupickDetected(e: Entry, k: nat)
    requires k < |e.imgSrcs| && Contains(Lower(e.imgSrcs[k]), "coupick")
    ensures CoupangPick(e)
  {
    CoupickIn(e.imgSrcs, k);
  }

  lemma {:induction false} CoupickIn(srcs: seq<string>, k: nat)
    requires k < |srcs| && Contains(Lower(srcs[k]), "coupick")
    ensures AnyCoupick(srcs)
    decreases k
  {
    if k > 0 {
      assert srcs[1..][k - 1] == srcs[k];
      CoupickIn(srcs[1..], k - 1);
    }
  }

  /** The text searched for the shipping phrases: the `DeliveryInfo` text,
      else the entry's text. */
  function ShipText(e: Entry): string
  {
    if Truthy(e.deliveryInner) then e.deliveryInner.value else e.entryText
  }

  // ================================================================ ids and matching

  /** The end of the run of digits starting at `k`. */
  function DigitRunEnd(s: string, k: nat): (e: nat)
    requires k <= |s|
    ensures k <= e <= |s| && (e < |s| ==> !IsDigit(s[e]))
    ensures forall m :: k <= m < e ==> IsDigit(s[m])
    decreases |s| - k
  {
    if k < |s| && IsDigit(s[k]) then DigitRunEnd(s, k + 1) else k
  }

  /** `marker(\d+)` can match at `i`. */
  predicate CaptureStart(s: string, marker: string, i: nat)
  {
    i + |marker| < |s| && s[i..i + |marker|] == marker && IsDigit(s[i + |marker|])
  }

  /** `s.match(/marker(\d+)/)?.[1]` searching from `i`: the digits after
      the leftmost occurrence of `marker` that is followed by a digit. */
  function CaptureFrom(s: string, marker: string, i: nat): (r: Option<string>)
    requires i <= |s|
    decreases |s| - i
  {
    if i == |s| then None
    else if CaptureStart(s, marker, i) then
      var e := DigitRunEnd(s, i + |marker|);
      Some(s[i + |marker|..e])
    else CaptureFrom(s, marker, i + 1)
  }

  /** A captured id is a non-empty run of digits. */
  lemma {:induction false} CaptureDigits(s: string, marker: string, i: nat)
    requires i <= |s|
    ensures CaptureFrom(s, marker, i).Some? ==>
      |CaptureFrom(s, marker, i).value| > 0 && AllDigits(CaptureFrom(s, marker, i).value)
    decreases |s| - i
  {
    if i < |s| {
      if CaptureStart(s, marker, i) {
        var e := DigitRunEnd(s, i + |marker|);
        var d := s[i + |marker|..e];
        assert forall k :: 0 <= k < |d| ==> d[k] == s[i + |marker| + k];
      } else {
        CaptureDigits(s, marker, i + 1);
      }
    }
  }

  /** The capture is the digit run after the leftmost position where the
      marker is followed by a digit, and there is none when no such position
      exists. */
  lemma {:induction false} CaptureLeftmost(s: string, marker: string, i: nat, p: nat)
    requires i <= p < |s| && CaptureStart(s, marker, p)
    requires forall q :: i <= q < p ==> !CaptureStart(s, marker, q)
    ensures CaptureFrom(s, marker, i) == Some(s[p + |marker|..DigitRunEnd(s, p + |marker|)])
    decreases p - i
  {
    if i < p {
      CaptureLeftmost(s, marker, i + 1, p);
    }
  }

  lemma {:induction false} CaptureNone(s: string, marker: string, i: nat)
    requires i <= |s|
    requires forall q :: i <= q < |s| ==> !CaptureStart(s, marker, q)
    ensures CaptureFrom(s, marker, i).None?
    decreases |s| - i
  {
    if i < |s| {
      CaptureNone(s, marker, i + 1);
    }
  }

  /** The markers of `/\/vp\/products\/(\d+)/`, `/itemId=(\d+)/` and
      `/vendorItemId=(\d+)/`. */
  const ProductMarker: string := "/vp/products/"
  const ItemMarker: string := "itemId="
  const VendorItemMarker: string := "vendorItemId="

  function ProductIdOf(href: string): Option<string> { CaptureFrom(href, ProductMarker, 0) }
  function ItemIdOf(href: string): Option<string> { CaptureFrom(href, ItemMarker, 0) }
  function VendorItemIdOf(href: string): Option<string> { CaptureFrom(href, VendorItemMarker, 0) }

  /** An id read from a link reads as the leading digit run after its
      marker: `/vp/products/111?itemId=222` has product id `111`. */
  lemma {:induction false} IdAfterMarker(pre: string, marker: string, digits: string, rest: string)
    requires |digits| > 0 && AllDigits(digits)
    requires rest == [] || !IsDigit(rest[0])
    requires forall q :: 0 <= q < |pre| ==> !CaptureStart(pre + marker + digits + rest, marker, q)
    ensures CaptureFrom(pre + marker + digits + rest, marker, 0) == Some(digits)
  {
    var s := pre + marker + digits + rest;
    var p := |pre|;
    assert s[p..p + |marker|] == marker;
    assert s[p + |marker|] == digits[0];
    CaptureLeftmost(s, marker, 0, p);
    var e := DigitRunEnd(s, p + |marker|);
    var d := p + |marker| + |digits|;
    forall m | p + |marker| <= m < d ensures IsDigit(s[m]) {
      assert s[m] == digits[m - p - |marker|];
    }
    if d < |s| {
      assert s[d] == rest[0];
    }
    assert e == d;
    assert s[p + |marker|..d] == digits;
  }

  /** `String(id)`: an id that was not found prints as `null`. */
  function IdText(id: Option<string>): string
  {
    if id.Some? then id.value else "null"
  }

  /** The link text the ad filter looks at: `''` when there is no link. */
  function HrefText(e: Entry): string
  {
    if e.href.Some? then e.href.value else ""
  }

  const AdTrackingMarker: string := "sourceType=srp_product_ads"

  /** A sponsored entry: an `AdMark` element, or an ad-tracking link. */
  predicate IsAd(e: Entry)
  {
    e.adMark || Contains(HrefText(e), AdTrackingMarker)
  }

  /** The primary match: `data-id` or the `/vp/products/` id. */
  predicate PrimaryMatch(e: Entry, code: string)
  {
    e.href.Some? && (e.dataId == code || IdText(ProductIdOf(e.href.value)) == code)
  }

  /** The fallback match on option variants: `itemId` or `vendorItemId`. */
  predicate OptionMatch(e: Entry, code: string)
  {
    e.href.Some? &&
    (IdText(ItemIdOf(e.href.value)) == code || IdText(VendorItemIdOf(e.href.value)) == code)
  }

  /** An entry with a link is the target when either match holds; one
      without a link is never examined. */
  predicate Matches(e: Entry, code: string)
  {
    PrimaryMatch(e, code) || OptionMatch(e, code)
  }

  /** The item-id fallback: an entry with product id 111 and item id 222 is
      the target of code 222. */
  lemma FallbackMatches(e: Entry, code: string)
    requires e.href.Some? && ItemIdOf(e.href.value) == Some(code)
    ensures Matches(e, code) && OptionMatch(e, code)
  {
  }

  /** Because a missing id prints as `null`, the code `null` (a task whose
      product code and product id are both null) matches any entry whose
      link lacks an item id. */
  lemma NullCodeMatchesMissingId(e: Entry)
    requires e.href.Some? && ItemIdOf(e.href.value).None?
    ensures Matches(e, "null")
  {
  }

  /** The entries left after removing sponsored ones, in display order. */
  function VisibleEntries(entries: seq<Entry>): (r: seq<Entry>)
    ensures |r| <= |entries|
    decreases |entries|
  {
    if |entries| == 0 then []
    else (if IsAd(entries[0]) then [] else [entries[0]]) + VisibleEntries(entries[1..])
  }

  /** Every visible entry is an entry of the page that is not sponsored. */
  lemma {:induction false} VisibleEntriesMeaning(entries: seq<Entry>)
    ensures forall k :: 0 <= k < |VisibleEntries(entries)| ==>
      !IsAd(VisibleEntries(entries)[k]) && VisibleEntries(entries)[k] in entries
    decreases |entries|
  {
    if |entries| > 0 {
      VisibleEntriesMeaning(entries[1..]);
      var r := VisibleEntries(entries);
      var head := if IsAd(entries[0]) then [] else [entries[0]];
      forall k | 0 <= k < |r| ensures !IsAd(r[k]) && r[k] in entries {
        if k >= |head| {
          assert r[k] == VisibleEntries(entries[1..])[k - |head|];
        }
      }
    }
  }

  lemma {:induction false} VisibleAppend(a: seq<Entry>, b: seq<Entry>)
    ensures VisibleEntries(a + b) == VisibleEntries(a) + VisibleEntries(b)
    decreases |a|
  {
    if |a| == 0 {
      assert a + b == b;
    } else {
      assert (a + b)[0] == a[0];
      assert (a + b)[1..] == a[1..] + b;
      VisibleAppend(a[1..], b);
    }
  }

  /** Sponsored entries vanish from the visible list. */
  lemma AdInvisible(a: seq<Entry>, ad: Entry, b: seq<Entry>)
    requires IsAd(ad)
    ensures VisibleEntries(a + [ad] + b) == VisibleEntries(a + b)
  {
    VisibleAppend(a + [ad], b);
    VisibleAppend(a, [ad]);
    VisibleAppend(a, b);
    assert VisibleEntries([ad]) == [] by {
      assert [ad][1..] == [];
    }
  }

  /** The index of the first matching entry at or after `i`. */
  function FirstMatchFrom(f: seq<Entry>, code: string, i: nat): (r: Option<nat>)
    requires i <= |f|
    ensures r.Some? ==> i <= r.value < |f|
    decreases |f| - i
  {
    if i == |f| then None
    else if Matches(f[i], code) then Some(i)
    else FirstMatchFrom(f, code, i + 1)
  }

  /** The search finds the first matching entry at or after `i`, and none
      when no entry from `i` on matches. */
  lemma {:induction false} FirstMatchFromMeaning(f: seq<Entry>, code: string, i: nat)
    requires i <= |f|
    ensures var r := FirstMatchFrom(f, code, i);
      r.Some? ==> Matches(f[r.value], code) && forall m :: i <= m < r.value ==> !Matches(f[m], code)
    ensures FirstMatchFrom(f, code, i).None? ==> forall m :: i <= m < |f| ==> !Matches(f[m], code)
    decreases |f| - i
  {
    if i < |f| && !Matches(f[i], code) {
      FirstMatchFromMeaning(f, code, i + 1);
    }
  }

  // ================================================================ the record

  /** The record of the matched entry at 1-based position `rank` among the
      visible entries, given its unit information. */
  function BuildRecord(e: Entry, rank: nat, unit: Option<UnitInfo>): ProductRecord
  {
    var isSoldout := e.soldout.Some?;
    ProductRecord(
      rank := rank,
      productName := if e.img.Some? then e.img.value.alt else Some("Unknown"),
      thumbnailUrl := if e.img.Some? then e.img.value.src else None,
      rating := e.rating,
      reviewCount := e.reviewCount,
      beforePrice := if isSoldout then None else ToNumber(e.basePriceText),
      salePrice := if isSoldout then None else ToNumber(e.salePriceText),
      discountPercent := if isSoldout then None else ToNumber(e.discountText),
      unitLabel := if unit.Some? && unit.value.labelText != "" then Some(unit.value.labelText) else None,
      unitPrice := if unit.Some? && unit.value.price != 0 then Some(unit.value.price) else None,
      freeShip := Contains(ShipText(e), "무료배송"),
      freeReturn := Contains(ShipText(e), "무료반품"),
      coupangPick := CoupangPick(e),
      discountTypes := DiscountTypes(e.priceAreaText),
      pointBenefit := FirstTruthy(e.benefitText, e.benefitAlt),
      deliveryInfo := if Truthy(e.deliveryText) then e.deliveryText else None,
      deliveryKeys := DeliveryKeys(e.badgeImgs),
      isSoldout := isSoldout,
      soldoutText := if Truthy(e.soldout) then e.soldout else None,
      productUrl := if HrefText(e) != "" then Some("https://www.coupang.com" + HrefText(e)) else None)
  }

  /** The record of the entry at position `rank` as `findProductInPage`
      builds it. */
  function RecordOf(e: Entry, rank: nat): ProductRecord
  {
    BuildRecord(e, rank, UnitInfoOf(e.priceNodes))
  }

  /** A sold-out entry has no price group, while its non-price fields are
      what they would be if it were in stock. */
  lemma SoldOutSuppressesPrices(e: Entry, rank: nat, text: string)
    requires e.soldout == Some(text)
    ensures var r := RecordOf(e, rank);
      r.beforePrice.None? && r.salePrice.None? && r.discountPercent.None? && r.isSoldout
    ensures var r := RecordOf(e, rank);
      var s := RecordOf(e.(soldout := None), rank);
      r.productName == s.productName && r.thumbnailUrl == s.thumbnailUrl &&
      r.rating == s.rating && r.deliveryKeys == s.deliveryKeys &&
      r.unitLabel == s.unitLabel && r.unitPrice == s.unitPrice
    ensures RecordOf(e, rank).soldoutText == (if text == "" then None else Some(text))
  {
  }

  /** The unit fields come from the unit note; a price of 0 is reported as
      missing, as `unitPrice || null` does. */
  lemma UnitFieldsOfRecord(e: Entry, rank: nat, u: UnitInfo)
    requires UnitInfoOf(e.priceNodes) == Some(u) && u.labelText != ""
    ensures RecordOf(e, rank).unitLabel == Some(u.labelText)
    ensures RecordOf(e, rank).unitPrice == (if u.price == 0 then None else Some(u.price))
  {
  }

  // ================================================================ a page

  /** The 0-based position, among the visible entries of a page, of the
      entry `findProductInPage` picks. */
  function PageMatch(entries: seq<Entry>, code: string): Option<nat>
  {
    FirstMatchFrom(VisibleEntries(entries), code, 0)
  }

  /** What `findProductInPage` returns for a page: the record of the first
      visible entry that matches, ranked by its position among the visible
      entries. */
  function FindInPage(entries: seq<Entry>, code: string): Option<ProductRecord>
  {
    var f := VisibleEntries(entries);
    match FirstMatchFrom(f, code, 0)
    case None => None
    case Some(i) => Some(RecordOf(f[i], i + 1))
  }

  /** `findProductInPage`: drops sponsored entries and returns the record
      of the first remaining entry that matches the code, or `null`. */
  method FindProductInPage(entries: seq<Entry>, code: string) returns (r: Option<ProductRecord>)
    ensures r == FindInPage(entries, code)
  {
    var filtered := VisibleEntries(entries);
    var i := 0;
    while i < |filtered|
      invariant 0 <= i <= |filtered|
      invariant FirstMatchFrom(filtered, code, 0) == FirstMatchFrom(filtered, code, i)
    {
      var product := filtered[i];
      if product.href.Some? {
        if PrimaryMatch(product, code) || OptionMatch(product, code) {
          var unit := FindUnitInfo(product.priceNodes);
          PageRecord(entries, code, i, unit);
          return Some(BuildRecord(product, i + 1, unit));
        }
      }
      i := i + 1;
    }
    return None;
  }

  /** The record of the entry at which the search of a page stops. */
  lemma PageRecord(entries: seq<Entry>, code: string, i: nat, unit: Option<UnitInfo>)
    requires i < |VisibleEntries(entries)| && Matches(VisibleEntries(entries)[i], code)
    requires FirstMatchFrom(VisibleEntries(entries), code, 0) == FirstMatchFrom(VisibleEntries(entries), code, i)
    requires unit == UnitInfoOf(VisibleEntries(entries)[i].priceNodes)
    ensures FindInPage(entries, code) == Some(BuildRecord(VisibleEntries(entries)[i], i + 1, unit))
  {
  }

  /** A page has a match exactly when some visible entry matches; the match
      is the first one and it is never sponsored. */
  lemma PageMatchMeaning(entries: seq<Entry>, code: string)
    ensures PageMatch(entries, code).Some? <==>
      exists i :: 0 <= i < |VisibleEntries(entries)| && Matches(VisibleEntries(entries)[i], code)
    ensures PageMatch(entries, code).Some? ==>
      var f, i := VisibleEntries(entries), PageMatch(entries, code).value;
      i < |f| && Matches(f[i], code) && !IsAd(f[i]) &&
      (forall m :: 0 <= m < i ==> !Matches(f[m], code))
  {
    var f := VisibleEntries(entries);
    FirstMatchFromMeaning(f, code, 0);
    VisibleEntriesMeaning(entries);
    if PageMatch(entries, code).Some? {
      var i := PageMatch(entries, code).value;
      assert 0 <= i < |f| && Matches(f[i], code);
      assert exists j :: 0 <= j < |VisibleEntries(entries)| && Matches(VisibleEntries(entries)[j], code);
    } else {
      assert forall i :: 0 <= i < |f| ==> !Matches(f[i], code);
    }
  }

  /** The record of a page is the record of its match, ranked by the
      match's 1-based position among the visible entries. */
  lemma FindInPageRecord(entries: seq<Entry>, code: string)
    ensures PageMatch(entries, code).None? <==> FindInPage(entries, code).None?
    ensures PageMatch(entries, code).Some? ==>
      var i := PageMatch(entries, code).value;
      i < |VisibleEntries(entries)| &&
      FindInPage(entries, code) == Some(RecordOf(VisibleEntries(entries)[i], i + 1))
  {
  }

  /** The first matching visible entry wins, even when it matches only by a
      fallback id and a later entry matches by the primary id. */
  lemma {:induction false} FirstMatchWins(f: seq<Entry>, code: string, i: nat)
    requires i < |f| && Matches(f[i], code)
    requires forall m :: 0 <= m < i ==> !Matches(f[m], code)
    ensures FirstMatchFrom(f, code, 0) == Some(i)
  {
    FirstMatchAt(f, code, 0, i);
  }

  lemma {:induction false} FirstMatchAt(f: seq<Entry>, code: string, j: nat, i: nat)
    requires j <= i < |f| && Matches(f[i], code)
    requires forall m :: j <= m < i ==> !Matches(f[m], code)
    ensures FirstMatchFrom(f, code, j) == Some(i)
    decreases i - j
  {
    if j < i {
      FirstMatchAt(f, code, j + 1, i);
    }
  }

  /** A sponsored entry never counts toward the local rank and is never
      the match, whatever its ids are: removing it changes nothing. */
  lemma AdNeverCounts(a: seq<Entry>, ad: Entry, b: seq<Entry>, code: string)
    requires IsAd(ad)
    ensures FindInPage(a + [ad] + b, code) == FindInPage(a + b, code)
  {
    AdInvisible(a, ad, b);
  }

  // ================================================================ the search

  /** The error `searchCoupang` throws on an error page. */
  const BlockedPageMessage: string := "BLOCKED: Error page detected"

  /** The error thrown when the product list never appears. */
  const ListNotFoundMessage: string := "Product list not found"

  /** One search as the browser saw it. `navigationError` is the message of
      a failed `page.goto`; `errorPage` and `noResult` are the two page
      checks; `listFound` says whether the product list appeared, and if it
      did not, `listErrorSignature` whether the URL or title looked like an
      error page. `firstPage` is the first result page and `nextPages` are
      the pages reached by successful moves; the move after the last of
      them fails (no button for the next page, or an error while moving). */
  datatype Session = Session(
    navigationError: Option<string>,
    errorPage: bool,
    noResult: bool,
    listFound: bool,
    listErrorSignature: bool,
    firstPage: seq<Entry>,
    nextPages: seq<seq<Entry>>)

  function Pages(s: Session): (r: seq<seq<Entry>>)
    ensures |r| >= 1
  {
    [s.firstPage] + s.nextPages
  }

  /** The entry the search settles on and its global rank. */
  datatype Hit = Hit(entry: Entry, rank: nat)

  /** The local match of every page, in page order. */
  function PageMatches(pages: seq<seq<Entry>>, code: string): seq<Option<nat>>
  {
    seq(|pages|, k requires 0 <= k < |pages| => PageMatch(pages[k], code))
  }

  /** The walk over the pages from `p` on (1-based), while `p <= maxPages`
      and page `p` was reached: the 0-based index of the first page whose
      search found something, with the local position found there. */
  function FirstHit(found: seq<Option<nat>>, p: nat): (r: Option<(nat, nat)>)
    requires p >= 1
    ensures r.Some? ==> p - 1 <= r.value.0 < |found| && found[r.value.0] == Some(r.value.1)
    decreases Config.MaxPages + 1 - p
  {
    if p > Config.MaxPages || p > |found| then None
    else if found[p - 1].Some? then Some((p - 1, found[p - 1].value))
    else FirstHit(found, p + 1)
  }

  /** The search over the pages from `p` on: the first page with a match
      gives the entry, with the global rank `(p - 1) * 72 + local rank`. */
  function ScanPages(pages: seq<seq<Entry>>, code: string, p: nat): Option<Hit>
    requires p >= 1
  {
    match FirstHit(PageMatches(pages, code), p)
    case None => None
    case Some((k, i)) => Some(Hit(VisibleEntries(pages[k])[i], k * Config.PageSize + i + 1))
  }

  /** The record the search returns for its outcome: the hit's record with
      its global rank, or the empty record with rank 0. */
  function HitRecord(h: Option<Hit>): ProductRecord
  {
    if h.Some? then RecordOf(h.value.entry, h.value.rank) else EmptyRecord
  }

  /** What `searchCoupang` returns or throws for a session. */
  function Search(s: Session, code: string): Result<ProductRecord, string>
  {
    if s.navigationError.Some? then Failure(s.navigationError.value)
    else if s.errorPage then Failure(BlockedPageMessage)
    else if s.noResult then Success(EmptyRecord)
    else if !s.listFound then
      Failure(if s.listErrorSignature then BlockedPageMessage else ListNotFoundMessage)
    else Success(HitRecord(ScanPages(Pages(s), code, 1)))
  }

  /** Overwriting the rank of a record gives the record built with that
      rank. */
  lemma Rerank(e: Entry, local: nat, global: nat)
    ensures RecordOf(e, local).(rank := global) == RecordOf(e, global)
  {
  }

  /** `searchCoupang`: checks the landing page, then walks at most
      `maxPages` result pages, returning the first match with its global
      rank, or rank 0 when the pages run out or a move fails. */
  method SearchCoupang(s: Session, code: string) returns (r: Result<ProductRecord, string>)
    ensures r == Search(s, code)
  {
    var result := EmptyRecord;
    if s.navigationError.Some? {
      return Failure(s.navigationError.value);
    }
    if s.errorPage {
      return Failure(BlockedPageMessage);
    }
    if s.noResult {
      return Success(result);
    }
    if !s.listFound {
      return Failure(if s.listErrorSignature then BlockedPageMessage else ListNotFoundMessage);
    }
    var pages := Pages(s);
    var currentPage := 1;
    while currentPage <= Config.MaxPages
      invariant 1 <= currentPage <= Config.MaxPages + 1
      invariant currentPage <= Config.MaxPages ==> currentPage <= |pages|
      invariant ScanPages(pages, code, 1) == ScanPages(pages, code, currentPage)
      decreases Config.MaxPages + 1 - currentPage
    {
      var pageResult := FindProductInPage(pages[currentPage - 1], code);
      PageStep(pages, code, currentPage, pageResult);
      if pageResult.Some? {
        result := pageResult.value.(rank := (currentPage - 1) * 72 + pageResult.value.rank);
        return Success(result);
      }
      if currentPage < Config.MaxPages {
        var moved := currentPage < |pages|;
        if !moved {
          break;
        }
      }
      currentPage := currentPage + 1;
    }
    return Success(result);
  }

  /** One page of the search: a page without a match passes the search on
      to the next page, and a page with a match ends it with that page's
      record, its rank raised by the 72 entries of each earlier page. */
  lemma PageStep(pages: seq<seq<Entry>>, code: string, p: nat, found: Option<ProductRecord>)
    requires 1 <= p <= Config.MaxPages && p <= |pages|
    requires found == FindInPage(pages[p - 1], code)
    ensures found.None? ==> ScanPages(pages, code, p) == ScanPages(pages, code, p + 1)
    ensures found.Some? ==>
      HitRecord(ScanPages(pages, code, p)) == found.value.(rank := (p - 1) * 72 + found.value.rank)
  {
    FindInPageRecord(pages[p - 1], code);
    if found.Some? {
      var i := PageMatch(pages[p - 1], code).value;
      ScanPagesFirst(pages, code, p, p - 1, i);
      Rerank(VisibleEntries(pages[p - 1])[i], i + 1, (p - 1) * 72 + i + 1);
    } else {
      assert PageMatches(pages, code)[p - 1] == PageMatch(pages[p - 1], code);
    }
  }

  /** The walk from page `p` finds nothing exactly when none of the pages
      from `p` to the last page searched (0-based `k`, page `k + 1`) found
      anything. */
  lemma {:induction false} FirstHitNone(found: seq<Option<nat>>, p: nat)
    requires p >= 1
    ensures FirstHit(found, p).None? <==>
      forall k :: p - 1 <= k < Config.MaxPages && k < |found| ==> found[k].None?
    decreases Config.MaxPages + 1 - p
  {
    if p <= Config.MaxPages && p <= |found| && found[p - 1].None? {
      FirstHitNone(found, p + 1);
    }
  }

  /** The walk settles on the first page from `p` on that found something. */
  lemma {:induction false} FirstHitAt(found: seq<Option<nat>>, p: nat, k: nat)
    requires 1 <= p <= k + 1 <= Config.MaxPages && k < |found| && found[k].Some?
    requires forall k' :: p - 1 <= k' < k ==> found[k'].None?
    ensures FirstHit(found, p) == Some((k, found[k].value))
    decreases k + 1 - p
  {
    if p < k + 1 {
      FirstHitAt(found, p + 1, k);
    }
  }

  /** The search from page `p` finds nothing exactly when none of the pages
      from `p` to the last page searched (0-based `k`, page `k + 1`) has a
      match. */
  lemma ScanPagesNone(pages: seq<seq<Entry>>, code: string, p: nat)
    requires p >= 1
    ensures ScanPages(pages, code, p).None? <==>
      forall k :: p - 1 <= k < Config.MaxPages && k < |pages| ==> PageMatch(pages[k], code).None?
  {
    var found := PageMatches(pages, code);
    assert forall k :: 0 <= k < |pages| ==> found[k] == PageMatch(pages[k], code);
    FirstHitNone(found, p);
  }

  /** When page `k + 1` is the first page from `p` on with a match, at
      visible position `i`, the search settles on that entry with the
      global rank `k * 72 + i + 1`. */
  lemma ScanPagesFirst(pages: seq<seq<Entry>>, code: string, p: nat, k: nat, i: nat)
    requires 1 <= p <= k + 1 <= Config.MaxPages && k < |pages|
    requires forall k' :: p - 1 <= k' < k ==> PageMatch(pages[k'], code).None?
    requires PageMatch(pages[k], code) == Some(i)
    ensures ScanPages(pages, code, p) == Some(Hit(VisibleEntries(pages[k])[i], k * 72 + i + 1))
  {
    FirstHitAt(PageMatches(pages, code), p, k);
  }

  /** A match on page `p` at visible position `i` (the first match of that
      page), with no match on the earlier pages, gives the global rank
      `(p - 1) * 72 + i + 1`. */
  lemma GlobalRank(s: Session, code: string, p: nat, i: nat)
    requires 1 <= p <= Config.MaxPages && p <= |Pages(s)|
    requires s.navigationError.None? && !s.errorPage && !s.noResult && s.listFound
    requires forall k :: 0 <= k < p - 1 ==> PageMatch(Pages(s)[k], code).None?
    requires PageMatch(Pages(s)[p - 1], code) == Some(i)
    ensures Search(s, code).Success?
    ensures Search(s, code).value.rank == (p - 1) * 72 + (i + 1) >= 1
  {
    ScanPagesFirst(Pages(s), code, 1, p - 1, i);
  }

  /** A "no results" page gives rank 0 before any page is read. */
  lemma NoResultIsRankZero(s: Session, code: string)
    requires s.navigationError.None? && !s.errorPage && s.noResult
    ensures Search(s, code) == Success(EmptyRecord)
    ensures forall t: Session :: t.navigationError.None? && !t.errorPage && t.noResult ==>
      Search(t, code) == Search(s, code)
  {
  }

  /** An error page is reported with a message the error classifier files
      as blocked. */
  lemma ErrorPageIsBlocked(s: Session, code: string)
    requires s.navigationError.None? && (s.errorPage || (!s.noResult && !s.listFound && s.listErrorSignature))
    ensures Search(s, code) == Failure(BlockedPageMessage)
    ensures Utils.GetErrorType(Search(s, code).error) == Utils.Blocked
  {
    BlockedPageMessageClassified();
  }

  /** The error-page message is filed as blocked by the error classifier. */
  lemma BlockedPageMessageClassified()
    ensures Utils.GetErrorType(BlockedPageMessage) == Utils.Blocked
  {
    assert BlockedPageMessage == "BLOCKED" + ": Error page detected";
    ContainsPrefix("BLOCKED", ": Error page detected");
    Utils.BlockedMarkerClassified(BlockedPageMessage);
  }

  /** When the product list does not appear and nothing looks like an error
      page, the search fails with `Product list not found`. */
  lemma ListMissingFails(s: Session, code: string)
    requires s.navigationError.None? && !s.errorPage && !s.noResult && !s.listFound && !s.listErrorSignature
    ensures Search(s, code) == Failure(ListNotFoundMessage)
  {
  }

  /** Pages beyond `maxPages` are never read: appending pages after the
      tenth does not change the result. */
  lemma PagesBeyondLimitIgnored(pages: seq<seq<Entry>>, extra: seq<seq<Entry>>, code: string, p: nat)
    requires 1 <= p && |pages| == Config.MaxPages
    ensures ScanPages(pages + extra, code, p) == ScanPages(pages, code, p)
  {
    var a, b := PageMatches(pages + extra, code), PageMatches(pages, code);
    forall k | 0 <= k < Config.MaxPages ensures a[k] == b[k] {
      assert (pages + extra)[k] == pages[k];
    }
    FirstHitPrefix(a, b, p);
  }

  /** The walk reads only the first `maxPages` page results. */
  lemma {:induction false} FirstHitPrefix(a: seq<Option<nat>>, b: seq<Option<nat>>, p: nat)
    requires p >= 1 && |a| >= Config.MaxPages && |b| == Config.MaxPages
    requires forall k :: 0 <= k < Config.MaxPages ==> a[k] == b[k]
    ensures FirstHit(a, p) == FirstHit(b, p)
    decreases Config.MaxPages + 1 - p
  {
    if p <= Config.MaxPages {
      FirstHitPrefix(a, b, p + 1);
    }
  }
}

/**
 What a build embeds: the document, every environment reference in it with the path it sits at, and the
 values found for them. Reading and writing the document's text are parameters, as is the environment.
 */
module DocumentBake {
  import opened DocumentMerge
  import opened Names
  import opened Wrappers

  // ---------------------------------------------------------------- finding text

  predicate StartsAt(s: string, i: nat, needle: string) {
    i + |needle| <= |s| && forall k :: 0 <= k < |needle| ==> s[i + k] == needle[k]
  }

  /** Where `needle` first starts in `s`, from `i` on. */
  function Find(s: string, needle: string, i: nat := 0): (r: Option<nat>)
    requires i <= |s| && needle != ""
    ensures match r
      case Some(j) =>
        i <= j && j + |needle| <= |s| && StartsAt(s, j, needle) && forall k :: i <= k < j ==> !StartsAt(s, k, needle)
      case None => forall k :: i <= k ==> !StartsAt(s, k, needle)
    decreases |s| - i
  {
    if StartsAt(s, i, needle) then Some(i) else if i < |s| then Find(s, needle, i + 1) else None
  }

  predicate Contains(s: string, needle: string)
    requires needle != ""
  {
    Find(s, needle).Some?
  }

  // ---------------------------------------------------------------- references in one text

  /** The names between each `${` and the next `}`. */
  function Scan(text: string): seq<string>
    decreases |text|
  {
    match Find(text, "${")
    case None => []
    case Some(start) =>
      var tail := text[start + 2..];
      match Find(tail, "}") case None => [] case Some(end) => [tail[..end]] + Scan(tail[end + 1..])
  }

  predicate IsPlain(text: string) {
    text != "" && text[0] == '$' && !Contains(text, "${")
  }

  function NamesIn(text: string): seq<string> {
    if IsPlain(text) then [text[1..]] else Scan(text)
  }

  /** A text as it was put together: literals, each followed by a braced name, and what comes last. */
  datatype Piece = Piece(literal: string, name: string)

  function Render(pieces: seq<Piece>, tail: string): string {
    if pieces == [] then tail
    else pieces[0].literal + ("${" + (pieces[0].name + ("}" + Render(pieces[1..], tail))))
  }

  predicate Unambiguous(p: Piece) {
    !Contains(p.literal, "${") && !Contains(p.name, "}")
  }

  predicate AllUnambiguous(pieces: seq<Piece>) {
    forall i :: 0 <= i < |pieces| ==> Unambiguous(pieces[i])
  }

  /** Nothing in `tail` is a braced name: what is opened is not closed. */
  predicate Unclosed(tail: string) {
    match Find(tail, "${") case None => true case Some(start) => !Contains(tail[start + 2..], "}")
  }

  function NamesOf(pieces: seq<Piece>): (r: seq<string>)
    ensures |r| == |pieces|
  {
    seq(|pieces|, i requires 0 <= i < |pieces| => pieces[i].name)
  }

  lemma MarkMeans(s: string, i: nat)
    ensures StartsAt(s, i, "${") <==> i + 1 < |s| && s[i] == '$' && s[i + 1] == '{'
  {
    var mark := "${";
    assert |mark| == 2 && mark[0] == '$' && mark[1] == '{';
    if StartsAt(s, i, mark) {
      assert s[i + 0] == mark[0] && s[i + 1] == mark[1];
    }
  }

  lemma FindsMark(literal: string, rest: string)
    requires !Contains(literal, "${")
    ensures Find(literal + ("${" + rest), "${") == Some(|literal|)
  {
    var text := literal + ("${" + rest);
    assert StartsAt(text, |literal|, "${");
    forall k | 0 <= k < |literal| ensures !StartsAt(text, k, "${") {
      MarkMeans(text, k);
      MarkMeans(literal, k);
    }
  }

  lemma FindsClose(name: string, rest: string)
    requires !Contains(name, "}")
    ensures Find(name + ("}" + rest), "}") == Some(|name|)
  {
    var text := name + ("}" + rest);
    assert StartsAt(text, |name|, "}");
    forall k | 0 <= k < |name| ensures !StartsAt(text, k, "}") {
      assert !StartsAt(name, k, "}");
      assert name[k + 0] == text[k + 0];
    }
  }

  lemma ScanStep(p: Piece, rest: string)
    requires Unambiguous(p)
    ensures Scan(p.literal + ("${" + (p.name + ("}" + rest)))) == [p.name] + Scan(rest)
  {
    hide Find;
    var text := p.literal + ("${" + (p.name + ("}" + rest)));
    FindsMark(p.literal, p.name + ("}" + rest));
    var tail := text[|p.literal| + 2..];
    assert tail == p.name + ("}" + rest);
    FindsClose(p.name, rest);
    assert tail[..|p.name|] == p.name && tail[|p.name| + 1..] == rest;
  }

  lemma UnclosedScansEmpty(tail: string)
    requires Unclosed(tail)
    ensures Scan(tail) == []
  {}

  lemma {:induction false} ScanRendered(pieces: seq<Piece>, tail: string)
    requires AllUnambiguous(pieces) && Unclosed(tail)
    ensures Scan(Render(pieces, tail)) == NamesOf(pieces)
  {
    hide Scan, Unambiguous, Unclosed;
    if pieces == [] {
      UnclosedScansEmpty(tail);
    } else {
      var rest := pieces[1..];
      ScanRendered(rest, tail);
      ScanStep(pieces[0], Render(rest, tail));
      assert NamesOf(pieces) == [pieces[0].name] + NamesOf(rest);
    }
  }

  /**
   The references in a text put together of literals and braced names are those names, in order; a text
   with no mark in it that begins with a dollar is one reference, to all that follows.
   */
  lemma NamesReadBack(pieces: seq<Piece>, tail: string)
    requires AllUnambiguous(pieces) && Unclosed(tail)
    ensures NamesIn(Render(pieces, tail)) == if pieces == [] && IsPlain(tail) then [tail[1..]] else NamesOf(pieces)
  {
    hide Find;
    ScanRendered(pieces, tail);
    if pieces != [] {
      var p, rest := pieces[0], Render(pieces[1..], tail);
      assert Contains(Render(pieces, tail), "${") by { FindsMark(p.literal, p.name + ("}" + rest)); }
    }
  }

  /** Every text was put together so. */
  lemma {:induction false} EveryTextIsRendered(text: string) returns (pieces: seq<Piece>, tail: string)
    ensures AllUnambiguous(pieces) && Unclosed(tail) && text == Render(pieces, tail)
    decreases |text|
  {
    hide Find, Unambiguous;
    if Unclosed(text) {
      pieces, tail := [], text;
    } else {
      var start := Find(text, "${").value;
      var after := text[start + 2..];
      var end := Find(after, "}").value;
      PieceFound(text, start, after, end);
      var p := Piece(text[..start], after[..end]);
      var rest;
      rest, tail := EveryTextIsRendered(after[end + 1..]);
      pieces := [p] + rest;
      assert pieces[1..] == rest;
    }
  }

  lemma PieceFound(text: string, start: nat, after: string, end: nat)
    requires Find(text, "${") == Some(start) && after == text[start + 2..] && Find(after, "}") == Some(end)
    ensures Unambiguous(Piece(text[..start], after[..end]))
    ensures text == text[..start] + ("${" + (after[..end] + ("}" + after[end + 1..])))
  {
    BeforeMark(text, start);
    BeforeClose(after, end);
    hide Find, StartsAt, Contains;
    CutAtMark(text, start);
    CutAtClose(after, end);
  }

  lemma CutAtMark(text: string, start: nat)
    requires start + 1 < |text| && text[start] == '$' && text[start + 1] == '{'
    ensures text == text[..start] + ("${" + text[start + 2..])
  {}

  lemma CutAtClose(after: string, end: nat)
    requires end < |after| && after[end] == '}'
    ensures after == after[..end] + ("}" + after[end + 1..])
  {}

  lemma BeforeMark(text: string, start: nat)
    requires Find(text, "${") == Some(start)
    ensures text[start] == '$' && text[start + 1] == '{' && !Contains(text[..start], "${")
  {
    MarkMeans(text, start);
    forall k: nat ensures !StartsAt(text[..start], k, "${") {
      MarkMeans(text[..start], k);
      MarkMeans(text, k);
    }
  }

  lemma BeforeClose(after: string, end: nat)
    requires Find(after, "}") == Some(end)
    ensures after[end] == '}' && !Contains(after[..end], "}")
  {
    var close := "}";
    assert close[0] == '}' && after[end + 0] == close[0];
    forall k: nat ensures !StartsAt(after[..end], k, "}") {
      assert k < end ==> !StartsAt(after, k, "}") && after[..end][k + 0] == after[k + 0];
    }
  }

  // ---------------------------------------------------------------- references in a document

  type Ref = (string, string)  // the path it sits at, the name it reads

  function Decimal(n: nat): string {
    var digit := ['0' + (n % 10) as char];
    if n < 10 then digit else Decimal(n / 10) + digit
  }

  function AtIndex(path: string, i: nat): string {
    path + "[" + Decimal(i) + "]"
  }

  function AtKey(path: string, k: Key): string {
    var key := if k.Name? then k.text else "?";
    if path == "" then key else path + "." + key
  }

  function Labelled(path: string, names: seq<string>): (r: seq<Ref>)
    ensures |r| == |names|
  {
    seq(|names|, i requires 0 <= i < |names| => (path, names[i]))
  }

  /** Every reference in `v`, in the order of the document. */
  function Refs(v: Value, path: string): seq<Ref>
    decreases v, 1, 0
  {
    match v
    case Text(text) => Labelled(path, NamesIn(text))
    case Sequence(items) => ItemRefs(v, path, |items|)
    case Mapping(keys, _) => FieldRefs(v, path, |keys|)
    case _ => []
  }

  function ItemRefs(v: Value, path: string, n: nat): seq<Ref>
    requires v.Sequence? && n <= |v.items|
    decreases v, 0, n
  {
    if n == 0 then [] else ItemRefs(v, path, n - 1) + Refs(v.items[n - 1], AtIndex(path, n - 1))
  }

  function FieldRefs(v: Value, path: string, n: nat): seq<Ref>
    requires v.Mapping? && n <= |v.keys|
    decreases v, 0, n
  {
    if n == 0 then []
    else
      var key := v.keys[n - 1];
      FieldRefs(v, path, n - 1) + if key in v.at then Refs(v.at[key], AtKey(path, key)) else []
  }

  /** One step down a document. */
  datatype Step = Item(index: nat) | Field(key: Key)

  /** What lies `steps` down from `v`. */
  function Reach(v: Value, steps: seq<Step>): Option<Value> {
    if steps == [] then Some(v)
    else match steps[0]
      case Item(i) => if v.Sequence? && i < |v.items| then Reach(v.items[i], steps[1..]) else None
      case Field(k) => if v.Mapping? && k in v.at then Reach(v.at[k], steps[1..]) else None
  }

  function PathOf(path: string, steps: seq<Step>): string
    decreases |steps|
  {
    if steps == [] then path
    else PathOf(match steps[0] case Item(i) => AtIndex(path, i) case Field(k) => AtKey(path, k), steps[1..])
  }

  ghost predicate Sits(v: Value, path: string, r: Ref, steps: seq<Step>) {
    && Reach(v, steps).Some? && Reach(v, steps).value.Text?
    && r.1 in NamesIn(Reach(v, steps).value.text) && r.0 == PathOf(path, steps)
  }

  lemma LabelledHolds(path: string, names: seq<string>, r: Ref)
    ensures r in Labelled(path, names) <==> r.0 == path && r.1 in names
  {
    if r.0 == path && r.1 in names {
      var i :| 0 <= i < |names| && names[i] == r.1;
      assert Labelled(path, names)[i] == r;
    }
  }

  lemma {:induction false} ItemHolds(v: Value, path: string, n: nat, r: Ref)
    requires v.Sequence? && n <= |v.items|
    ensures r in ItemRefs(v, path, n) <==> exists i :: 0 <= i < n && r in Refs(v.items[i], AtIndex(path, i))
  {
    hide Refs;
    if n > 0 { ItemHolds(v, path, n - 1, r); }
  }

  lemma {:induction false} FieldHolds(v: Value, path: string, n: nat, r: Ref)
    requires v.Mapping? && n <= |v.keys|
    ensures r in FieldRefs(v, path, n)
      <==> exists i :: 0 <= i < n && v.keys[i] in v.at && r in Refs(v.at[v.keys[i]], AtKey(path, v.keys[i]))
  {
    hide Refs;
    if n > 0 { FieldHolds(v, path, n - 1, r); }
  }

  lemma SitsInside(v: Value, path: string, r: Ref, steps: seq<Step>)
    requires steps != []
    ensures Sits(v, path, r, steps) <==>
      match steps[0]
      case Item(i) => v.Sequence? && i < |v.items| && Sits(v.items[i], AtIndex(path, i), r, steps[1..])
      case Field(k) => v.Mapping? && k in v.at && Sits(v.at[k], AtKey(path, k), r, steps[1..])
  {}

  lemma {:induction false} ListedSits(v: Value, path: string, r: Ref) returns (steps: seq<Step>)
    requires r in Refs(v, path)
    ensures Sits(v, path, r, steps)
    decreases v
  {
    hide NamesIn, AtIndex, AtKey;
    match v
    case Text(text) =>
      LabelledHolds(path, NamesIn(text), r);
      steps := [];
    case Sequence(items) =>
      ItemHolds(v, path, |items|, r);
      var i: nat :| i < |items| && r in Refs(items[i], AtIndex(path, i));
      var rest := ListedSits(items[i], AtIndex(path, i), r);
      steps := [Item(i)] + rest;
      assert steps[1..] == rest;
      SitsInside(v, path, r, steps);
    case Mapping(keys, at) =>
      FieldHolds(v, path, |keys|, r);
      var i :| 0 <= i < |keys| && keys[i] in at && r in Refs(at[keys[i]], AtKey(path, keys[i]));
      var rest := ListedSits(at[keys[i]], AtKey(path, keys[i]), r);
      steps := [Field(keys[i])] + rest;
      assert steps[1..] == rest;
      SitsInside(v, path, r, steps);
    case _ =>
  }

  lemma {:induction false} SitsListed(v: Value, path: string, r: Ref, steps: seq<Step>)
    requires Wf(v) && Sits(v, path, r, steps)
    ensures r in Refs(v, path)
    decreases |steps|
  {
    hide NamesIn, AtIndex, AtKey;
    if steps == [] {
      LabelledHolds(path, NamesIn(v.text), r);
    } else {
      SitsInside(v, path, r, steps);
      match steps[0]
      case Item(i) =>
        SitsListed(v.items[i], AtIndex(path, i), r, steps[1..]);
        ItemHolds(v, path, |v.items|, r);
      case Field(k) =>
        SitsListed(v.at[k], AtKey(path, k), r, steps[1..]);
        FieldHolds(v, path, |v.keys|, r);
        var i :| 0 <= i < |v.keys| && v.keys[i] == k;
    }
  }

  /** A document's references are the names in its texts, each with the path down to its text. */
  lemma ListsWhatSits(v: Value, path: string, r: Ref)
    requires Wf(v)
    ensures r in Refs(v, path) <==> exists steps :: Sits(v, path, r, steps)
  {
    if r in Refs(v, path) { var steps := ListedSits(v, path, r); }
    if exists steps :: Sits(v, path, r, steps) {
      var steps :| Sits(v, path, r, steps);
      SitsListed(v, path, r, steps);
    }
  }

  // ---------------------------------------------------------------- what a path reads as

  predicate IsDigit(c: char) {
    '0' <= c <= '9'
  }

  /** The number digits stand for. */
  function ValueOf(digits: string): nat
    requires forall c :: c in digits ==> IsDigit(c)
  {
    if digits == "" then 0
    else
      var last := digits[|digits| - 1];
      assert last in digits && IsDigit(last);
      ValueOf(digits[..|digits| - 1]) * 10 + (last as int - '0' as int)
  }

  /** `digits` is `n` as it is written: in tens, with no zero in front. */
  ghost predicate Writes(digits: string, n: nat) {
    && digits != "" && (forall c :: c in digits ==> IsDigit(c))
    && ValueOf(digits) == n && (|digits| > 1 ==> digits[0] != '0')
  }

  lemma {:induction false} DecimalWrites(n: nat)
    ensures Writes(Decimal(n), n)
  {
    var d := Decimal(n);
    if n >= 10 {
      DecimalWrites(n / 10);
      assert d[..|d| - 1] == Decimal(n / 10);
      DecimalLead(n / 10);
    } else {
      assert d[..0] == "";
    }
  }

  lemma DecimalLead(n: nat)
    requires n > 0 && Writes(Decimal(n), n)
    ensures Decimal(n)[0] != '0'
  {
    var d := Decimal(n);
    if |d| == 1 { assert d[..0] == ""; }
  }

  /**
   One step further down, a path goes on with the index in brackets, or with the key behind a dot, and no
   dot where the path was empty; a key that is not text shows as a question mark.
   */
  lemma {:induction false} PathGoesOn(path: string, steps: seq<Step>, step: Step)
    ensures var before, after := PathOf(path, steps), PathOf(path, steps + [step]);
      match step
      case Item(i) => exists digits :: Writes(digits, i) && after == before + "[" + digits + "]"
      case Field(Name(key)) => after == if before == "" then key else before + "." + key
      case Field(Other(_)) => after == if before == "" then "?" else before + ".?"
    decreases |steps|
  {
    if steps == [] {
      assert steps + [step] == [step] && [step][1..] == [];
      if step.Item? { DecimalWrites(step.index); }
    } else {
      assert (steps + [step])[1..] == steps[1..] + [step];
      hide AtIndex, AtKey;
      PathGoesOn(match steps[0] case Item(i) => AtIndex(path, i) case Field(k) => AtKey(path, k), steps[1..], step);
    }
  }

  // ---------------------------------------------------------------- the order of the references

  /** A reference of a document: the text it is in, and its number there. */
  datatype Site = Site(steps: seq<Step>, number: nat)

  /** In the order of the document: a text's names in turn, items by index, fields as the mapping keeps them. */
  ghost predicate Precedes(v: Value, a: Site, b: Site)
    decreases |a.steps|
  {
    if a.steps == [] || b.steps == [] then a.steps == b.steps && a.number < b.number
    else
      var down, across := Site(a.steps[1..], a.number), Site(b.steps[1..], b.number);
      match (a.steps[0], b.steps[0])
      case (Item(i), Item(j)) => i < j || (i == j && v.Sequence? && i < |v.items| && Precedes(v.items[i], down, across))
      case (Field(k), Field(l)) =>
        || (v.Mapping? && exists p, q :: 0 <= p < q < |v.keys| && v.keys[p] == k && v.keys[q] == l)
        || (k == l && v.Mapping? && k in v.at && Precedes(v.at[k], down, across))
      case _ => false
  }

  /** The site holds the reference. */
  ghost predicate IsAt(v: Value, path: string, site: Site, r: Ref) {
    && Reach(v, site.steps).Some? && Reach(v, site.steps).value.Text?
    && var names := NamesIn(Reach(v, site.steps).value.text);
       site.number < |names| && r == (PathOf(path, site.steps), names[site.number])
  }

  /** The references in turn are those at `sites`, each before the next. */
  ghost predicate Enumerated(v: Value, path: string, refs: seq<Ref>, sites: seq<Site>) {
    && |sites| == |refs|
    && (forall i :: 0 <= i < |refs| ==> IsAt(v, path, sites[i], refs[i]))
    && (forall i, j :: 0 <= i < j < |sites| ==> Precedes(v, sites[i], sites[j]))
  }

  function Under(step: Step, sites: seq<Site>): (r: seq<Site>)
    ensures |r| == |sites|
    ensures forall i :: 0 <= i < |sites| ==> r[i] == Site([step] + sites[i].steps, sites[i].number)
  {
    seq(|sites|, i requires 0 <= i < |sites| => Site([step] + sites[i].steps, sites[i].number))
  }

  /** Every reference of `v`, by where it is. */
  ghost function Sites(v: Value): seq<Site>
    decreases v, 1, 0
  {
    match v
    case Text(text) => seq(|NamesIn(text)|, n requires 0 <= n < |NamesIn(text)| => Site([], n))
    case Sequence(items) => ItemSites(v, |items|)
    case Mapping(keys, _) => FieldSites(v, |keys|)
    case _ => []
  }

  ghost function ItemSites(v: Value, n: nat): seq<Site>
    requires v.Sequence? && n <= |v.items|
    decreases v, 0, n
  {
    if n == 0 then [] else ItemSites(v, n - 1) + Under(Item(n - 1), Sites(v.items[n - 1]))
  }

  ghost function FieldSites(v: Value, n: nat): seq<Site>
    requires v.Mapping? && n <= |v.keys|
    decreases v, 0, n
  {
    if n == 0 then []
    else
      var key := v.keys[n - 1];
      FieldSites(v, n - 1) + if key in v.at then Under(Field(key), Sites(v.at[key])) else []
  }

  /** Sites below one step keep their references and their order. */
  lemma UnderHolds(v: Value, path: string, step: Step, w: Value, deeper: string, refs: seq<Ref>, sites: seq<Site>)
    requires Enumerated(w, deeper, refs, sites)
    requires match step
             case Item(i) => v.Sequence? && i < |v.items| && w == v.items[i] && deeper == AtIndex(path, i)
             case Field(k) => v.Mapping? && k in v.at && w == v.at[k] && deeper == AtKey(path, k)
    ensures Enumerated(v, path, refs, Under(step, sites))
  {
    hide NamesIn, AtIndex, AtKey;
    var under := Under(step, sites);
    forall i | 0 <= i < |refs| ensures IsAt(v, path, under[i], refs[i]) {
      assert IsAt(w, deeper, sites[i], refs[i]);
      assert under[i].steps[1..] == sites[i].steps;
    }
    forall i, j | 0 <= i < j < |under| ensures Precedes(v, under[i], under[j]) {
      assert Precedes(w, sites[i], sites[j]);
      assert Site(under[i].steps[1..], under[i].number) == sites[i]
        && Site(under[j].steps[1..], under[j].number) == sites[j];
    }
  }

  /** Sites that come after those already there. */
  lemma EnumeratedJoins(v: Value, path: string, refs: seq<Ref>, sites: seq<Site>, more: seq<Ref>, beyond: seq<Site>)
    requires Enumerated(v, path, refs, sites) && Enumerated(v, path, more, beyond)
    requires forall i, j :: 0 <= i < |sites| && 0 <= j < |beyond| ==> Precedes(v, sites[i], beyond[j])
    ensures Enumerated(v, path, refs + more, sites + beyond)
  {
    hide IsAt, Precedes;
  }

  ghost predicate StartsWithItem(sites: seq<Site>, n: nat) {
    forall i :: 0 <= i < |sites| ==> sites[i].steps != [] && sites[i].steps[0].Item? && sites[i].steps[0].index < n
  }

  lemma ItemsPrecede(v: Value, sites: seq<Site>, beyond: seq<Site>, n: nat)
    requires v.Sequence? && StartsWithItem(sites, n)
    requires forall j :: 0 <= j < |beyond| ==> beyond[j].steps != [] && beyond[j].steps[0] == Item(n)
    ensures forall i, j :: 0 <= i < |sites| && 0 <= j < |beyond| ==> Precedes(v, sites[i], beyond[j])
    ensures StartsWithItem(sites + beyond, n + 1)
  {}

  lemma {:induction false} ItemsEnumerated(v: Value, path: string, n: nat)
    requires Wf(v) && v.Sequence? && n <= |v.items|
    ensures Enumerated(v, path, ItemRefs(v, path, n), ItemSites(v, n)) && StartsWithItem(ItemSites(v, n), n)
    decreases v, 0, n
  {
    if n > 0 {
      hide Sites, Refs, Enumerated, AtIndex, Precedes, StartsWithItem;
      var w, deeper := v.items[n - 1], AtIndex(path, n - 1);
      ItemsEnumerated(v, path, n - 1);
      RefsEnumerated(w, deeper);
      UnderHolds(v, path, Item(n - 1), w, deeper, Refs(w, deeper), Sites(w));
      var sites, beyond := ItemSites(v, n - 1), Under(Item(n - 1), Sites(w));
      ItemsPrecede(v, sites, beyond, n - 1);
      EnumeratedJoins(v, path, ItemRefs(v, path, n - 1), sites, Refs(w, deeper), beyond);
    } else {
      NothingEnumerated(v, path);
    }
  }

  lemma NothingEnumerated(v: Value, path: string)
    ensures Enumerated(v, path, [], []) && StartsWithItem([], 0)
  {}

  ghost predicate StartsWithField(v: Value, sites: seq<Site>, n: nat)
    requires v.Mapping? && n <= |v.keys|
  {
    forall i :: 0 <= i < |sites| ==>
      sites[i].steps != [] && sites[i].steps[0].Field? && sites[i].steps[0].key in v.keys[..n]
  }

  lemma FieldPrecedes(v: Value, a: Site, b: Site, n: nat)
    requires v.Mapping? && n < |v.keys| && a.steps != [] && b.steps != []
    requires a.steps[0].Field? && a.steps[0].key in v.keys[..n] && b.steps[0] == Field(v.keys[n])
    ensures Precedes(v, a, b)
  {
    var p :| 0 <= p < n && v.keys[..n][p] == a.steps[0].key;
    assert v.keys[p] == a.steps[0].key && v.keys[n] == b.steps[0].key;
  }

  lemma FieldsPrecede(v: Value, sites: seq<Site>, beyond: seq<Site>, n: nat)
    requires v.Mapping? && n < |v.keys| && StartsWithField(v, sites, n)
    requires forall j :: 0 <= j < |beyond| ==> beyond[j].steps != [] && beyond[j].steps[0] == Field(v.keys[n])
    ensures forall i, j :: 0 <= i < |sites| && 0 <= j < |beyond| ==> Precedes(v, sites[i], beyond[j])
  {
    hide Precedes;
    forall i, j | 0 <= i < |sites| && 0 <= j < |beyond| ensures Precedes(v, sites[i], beyond[j]) {
      FieldPrecedes(v, sites[i], beyond[j], n);
    }
  }

  lemma KeyMore(v: Value, sites: seq<Site>, beyond: seq<Site>, n: nat)
    requires v.Mapping? && n < |v.keys| && StartsWithField(v, sites, n)
    requires forall j :: 0 <= j < |beyond| ==> beyond[j].steps != [] && beyond[j].steps[0] == Field(v.keys[n])
    ensures StartsWithField(v, sites + beyond, n + 1)
  {
    assert v.keys[..n + 1] == v.keys[..n] + [v.keys[n]];
  }

  lemma {:induction false} FieldsEnumerated(v: Value, path: string, n: nat)
    requires Wf(v) && v.Mapping? && n <= |v.keys|
    ensures Enumerated(v, path, FieldRefs(v, path, n), FieldSites(v, n)) && StartsWithField(v, FieldSites(v, n), n)
    decreases v, 0, n
  {
    if n > 0 {
      var key := v.keys[n - 1];
      assert key in v.at && Wf(v.at[key]);
      hide Sites, Refs, Enumerated, AtKey, Precedes, StartsWithField;
      var w, deeper := v.at[key], AtKey(path, key);
      FieldsEnumerated(v, path, n - 1);
      RefsEnumerated(w, deeper);
      hide Wf;
      UnderHolds(v, path, Field(key), w, deeper, Refs(w, deeper), Sites(w));
      var sites, beyond := FieldSites(v, n - 1), Under(Field(key), Sites(w));
      FieldsPrecede(v, sites, beyond, n - 1);
      KeyMore(v, sites, beyond, n - 1);
      EnumeratedJoins(v, path, FieldRefs(v, path, n - 1), sites, Refs(w, deeper), beyond);
    } else {
      NothingEnumerated(v, path);
    }
  }

  lemma {:induction false} RefsEnumerated(v: Value, path: string)
    requires Wf(v)
    ensures Enumerated(v, path, Refs(v, path), Sites(v))
    decreases v, 1, 0
  {
    hide NamesIn;
    match v
    case Sequence(items) => ItemsEnumerated(v, path, |items|);
    case Mapping(keys, _) => FieldsEnumerated(v, path, |keys|);
    case _ =>
  }

  lemma {:induction false} ItemSitesHold(v: Value, n: nat, i: nat, site: Site)
    requires v.Sequence? && i < n <= |v.items| && site in Sites(v.items[i])
    ensures Site([Item(i)] + site.steps, site.number) in ItemSites(v, n)
  {
    hide Sites;
    if i < n - 1 {
      ItemSitesHold(v, n - 1, i, site);
    } else {
      var k :| 0 <= k < |Sites(v.items[i])| && Sites(v.items[i])[k] == site;
      assert Under(Item(i), Sites(v.items[i]))[k] == Site([Item(i)] + site.steps, site.number);
    }
  }

  lemma {:induction false} FieldSitesHold(v: Value, n: nat, p: nat, site: Site)
    requires v.Mapping? && p < n <= |v.keys| && v.keys[p] in v.at && site in Sites(v.at[v.keys[p]])
    ensures Site([Field(v.keys[p])] + site.steps, site.number) in FieldSites(v, n)
  {
    hide Sites;
    var key := v.keys[p];
    if p < n - 1 {
      FieldSitesHold(v, n - 1, p, site);
    } else {
      var k :| 0 <= k < |Sites(v.at[key])| && Sites(v.at[key])[k] == site;
      assert Under(Field(key), Sites(v.at[key]))[k] == Site([Field(key)] + site.steps, site.number);
    }
  }

  lemma {:induction false} EverySiteListed(v: Value, path: string, site: Site, r: Ref)
    requires Wf(v) && IsAt(v, path, site, r)
    ensures site in Sites(v)
    decreases |site.steps|
  {
    hide NamesIn, AtIndex, AtKey;
    if site.steps == [] {
      assert Sites(v)[site.number] == site;
    } else {
      var deeper := Site(site.steps[1..], site.number);
      assert site == Site([site.steps[0]] + deeper.steps, deeper.number);
      match site.steps[0]
      case Item(i) =>
        EverySiteListed(v.items[i], AtIndex(path, i), deeper, r);
        ItemSitesHold(v, |v.items|, i, deeper);
      case Field(k) =>
        EverySiteListed(v.at[k], AtKey(path, k), deeper, r);
        assert k in v.keys;
        var p :| 0 <= p < |v.keys| && v.keys[p] == k;
        FieldSitesHold(v, |v.keys|, p, deeper);
    }
  }

  /**
   The references are those of the document's texts, each once for every time it stands there, in the order
   of the document: there are sites, each before the next and none left out, that hold them in turn.
   */
  lemma RefsInDocumentOrder(v: Value, path: string) returns (sites: seq<Site>)
    requires Wf(v)
    ensures Enumerated(v, path, Refs(v, path), sites)
    ensures forall site, r :: IsAt(v, path, site, r) ==> site in sites
  {
    sites := Sites(v);
    RefsEnumerated(v, path);
    forall site, r | IsAt(v, path, site, r) ensures site in sites { EverySiteListed(v, path, site, r); }
  }

  // ---------------------------------------------------------------- collecting, as it runs

  lemma LabelledJoins(path: string, names: seq<string>, name: string)
    ensures Labelled(path, []) == [] && Labelled(path, names + [name]) == Labelled(path, names) + [(path, name)]
  {}

  lemma ScanOne(rest: string, found: seq<string>, start: nat, end: nat)
    requires Find(rest, "${") == Some(start) && Find(rest[start + 2..], "}") == Some(end)
    ensures var tail := rest[start + 2..];
      found + Scan(rest) == (found + [tail[..end]]) + Scan(tail[end + 1..])
  {
    hide Find;
    var tail := rest[start + 2..];
    assert Scan(rest) == [tail[..end]] + Scan(tail[end + 1..]);
  }

  method ScanText(text: string, path: string, refs: seq<Ref>) returns (r: seq<Ref>)
    ensures r == refs + Labelled(path, Scan(text))
  {
    hide Find, StartsAt, Labelled;
    r := refs;
    var rest := text;
    ghost var found: seq<string> := [];
    assert [] + Scan(text) == Scan(text);
    LabelledJoins(path, [], "");
    while Find(rest, "${").Some?
      invariant Scan(text) == found + Scan(rest)
      invariant r == refs + Labelled(path, found)
      decreases |rest|
    {
      var start := Find(rest, "${").value;
      var tail := rest[start + 2..];
      if Find(tail, "}") == None {
        assert found + [] == found;
        return;
      }
      var end := Find(tail, "}").value;
      r := r + [(path, tail[..end])];
      LabelledJoins(path, found, tail[..end]);
      ScanOne(rest, found, start, end);
      rest := tail[end + 1..];
      found := found + [tail[..end]];
    }
    assert found + [] == found;
  }

  method CollectRefs(v: Value, path: string, refs: seq<Ref>) returns (r: seq<Ref>)
    requires Wf(v)
    ensures r == refs + Refs(v, path)
    decreases v
  {
    hide Find, Scan, AtIndex, AtKey;
    match v {
      case Text(text) =>
        if IsPlain(text) {
          r := refs + [(path, text[1..])];
        } else {
          r := ScanText(text, path, refs);
        }
      case Sequence(items) =>
        r := refs;
        var i := 0;
        while i < |items|
          invariant i <= |items| && r == refs + ItemRefs(v, path, i)
        {
          r := CollectRefs(items[i], AtIndex(path, i), r);
          i := i + 1;
        }
      case Mapping(keys, at) =>
        r := refs;
        var i := 0;
        while i < |keys|
          invariant i <= |keys| && r == refs + FieldRefs(v, path, i)
        {
          r := CollectRefs(at[keys[i]], AtKey(path, keys[i]), r);
          i := i + 1;
        }
      case _ => r := refs;
    }
  }

  // ---------------------------------------------------------------- the bake

  datatype BakeError = Yaml(reason: string)

  datatype Bake = Bake(document: string, refs: seq<Ref>, resolved: seq<(string, string)>)

  /** The library that reads and writes a document's text. */
  datatype Format = Format(parse: string -> Result<Value, BakeError>, show: Value -> Result<string, BakeError>)

  /** What it reads is well formed. */
  ghost predicate Sound(f: Format) {
    forall text :: f.parse(text).Success? ==> Wf(f.parse(text).value)
  }

  /** `Vec::dedup`, and what it makes of sorted names. */
  method Dedup(names: seq<string>) returns (r: seq<string>)
    ensures forall x :: x in r <==> x in names
    ensures forall i :: 0 < i < |r| ==> r[i - 1] != r[i]
    ensures Sorted(names) ==> Sorted(r) && Distinct(r)
  {
    r := [];
    var i := 0;
    while i < |names|
      invariant i <= |names|
      invariant r != [] <==> i > 0
      invariant i > 0 ==> r[|r| - 1] == names[i - 1]
      invariant forall x :: x in r <==> x in names[..i]
      invariant forall i :: 0 < i < |r| ==> r[i - 1] != r[i]
      invariant Sorted(names) ==> Sorted(r)
    {
      assert names[..i + 1] == names[..i] + [names[i]];
      if r == [] || r[|r| - 1] != names[i] {
        if Sorted(names) { SortedSnoc(names, i, r); }
        r := r + [names[i]];
      }
      i := i + 1;
    }
    assert names[..i] == names;
    if Sorted(names) { SortedApart(r); }
  }

  lemma SortedSnoc(names: seq<string>, i: nat, r: seq<string>)
    requires Sorted(names) && i < |names| && Sorted(r) && forall x :: x in r <==> x in names[..i]
    ensures Sorted(r + [names[i]])
  {
    forall k | 0 <= k < |r| ensures Leq(r[k], names[i]) {
      assert r[k] in names[..i];
    }
  }

  lemma SortedApart(r: seq<string>)
    requires Sorted(r) && forall i :: 0 < i < |r| ==> r[i - 1] != r[i]
    ensures Distinct(r)
  {
    forall i, j | 0 <= i < j < |r| ensures r[i] != r[j] {
      if r[i] == r[j] {
        LeqAntisymmetric(r[j - 1], r[j]);
        assert false;
      }
    }
  }

  function Firsts(pairs: seq<(string, string)>): (r: seq<string>)
    ensures |r| == |pairs|
  {
    seq(|pairs|, i requires 0 <= i < |pairs| => pairs[i].0)
  }

  predicate Answers(env: map<string, string>, name: string, value: string) {
    name in env && env[name] == value && value != ""
  }

  ghost predicate Referenced(refs: seq<Ref>, name: string) {
    exists i :: 0 <= i < |refs| && refs[i].1 == name
  }

  /** `resolved` is every name referenced that the environment answers, ascending, each once, with its answer. */
  ghost predicate Resolves(resolved: seq<(string, string)>, refs: seq<Ref>, env: map<string, string>) {
    && Sorted(Firsts(resolved)) && Distinct(Firsts(resolved))
    && forall name, value :: (name, value) in resolved <==> Referenced(refs, name) && Answers(env, name, value)
  }

  /** What a document references and what the environment answers leave one thing to embed. */
  lemma ResolvedIsUnique(x: seq<(string, string)>, y: seq<(string, string)>, refs: seq<Ref>, env: map<string, string>)
    requires Resolves(x, refs, env) && Resolves(y, refs, env)
    ensures x == y
  {
    FirstsAgree(x, y, refs, env);
    FirstsAgree(y, x, refs, env);
    AscendingUnique(Firsts(x), Firsts(y));
    forall i | 0 <= i < |x| ensures x[i] == y[i] {
      assert x[i] == (x[i].0, x[i].1) && x[i] in x && y[i] == (y[i].0, y[i].1) && y[i] in y;
      assert Firsts(x)[i] == Firsts(y)[i];
    }
  }

  lemma FirstsAgree(x: seq<(string, string)>, y: seq<(string, string)>, refs: seq<Ref>, env: map<string, string>)
    requires Resolves(x, refs, env) && Resolves(y, refs, env)
    ensures forall name :: name in Firsts(x) ==> name in Firsts(y)
  {
    forall name | name in Firsts(x) ensures name in Firsts(y) {
      var i :| 0 <= i < |x| && Firsts(x)[i] == name;
      assert (x[i].0, x[i].1) in x;
      var j :| 0 <= j < |y| && y[j] == x[i];
      assert Firsts(y)[j] == name;
    }
  }

  /** Each name paired with its answer, where there is one. */
  method Lookup(names: seq<string>, refs: seq<Ref>, env: map<string, string>) returns (resolved: seq<(string, string)>)
    requires Sorted(names) && Distinct(names) && forall name :: name in names <==> Referenced(refs, name)
    ensures Resolves(resolved, refs, env)
  {
    hide Referenced, Leq;
    resolved := [];
    var i := 0;
    while i < |names|
      invariant i <= |names|
      invariant Sorted(Firsts(resolved)) && Distinct(Firsts(resolved))
      invariant forall name, value :: (name, value) in resolved <==> name in names[..i] && Answers(env, name, value)
    {
      var name := names[i];
      assert names[..i + 1] == names[..i] + [name];
      if name in env && env[name] != "" {
        FirstsHold(resolved, names[..i]);
        AscendingSnoc(names, i, Firsts(resolved));
        assert Firsts(resolved + [(name, env[name])]) == Firsts(resolved) + [name];
        resolved := resolved + [(name, env[name])];
      }
      i := i + 1;
    }
    assert names[..i] == names;
  }

  lemma FirstsHold(pairs: seq<(string, string)>, names: seq<string>)
    requires forall name, value :: (name, value) in pairs ==> name in names
    ensures forall name :: name in Firsts(pairs) ==> name in names
  {}

  lemma AscendingSnoc(names: seq<string>, i: nat, r: seq<string>)
    requires Sorted(names) && Distinct(names) && i < |names|
    requires Sorted(r) && Distinct(r) && forall x :: x in r ==> x in names[..i]
    ensures Sorted(r + [names[i]]) && Distinct(r + [names[i]])
  {
    forall k | 0 <= k < |r| ensures Leq(r[k], names[i]) && r[k] != names[i] {
      assert r[k] in names[..i];
    }
  }

  predicate IsWeb(targetArch: string) {
    targetArch == "wasm32"
  }

  /** The document whose references are baked: the overlay is laid on for the web alone. */
  ghost function Baked(targetArch: string, app: string, web: string, f: Format): Result<Value, BakeError> {
    match f.parse(app)
    case Failure(e) => Failure(e)
    case Success(document) =>
      if !IsWeb(targetArch) then Success(document)
      else match f.parse(web) case Failure(e) => Failure(e) case Success(over) => Success(Merged(document, over))
  }

  /**
   Which document that is: for the web what its overlay names is the overlay's and what it leaves alone is the
   application's; for any other target it is the application's own.
   */
  lemma BakedLayers(targetArch: string, app: string, web: string, f: Format, path: seq<Key>)
    requires f.parse(app).Success? && f.parse(web).Success?
    ensures Baked(targetArch, app, web, f).Success?
    ensures var mine, overlay := f.parse(app).value, f.parse(web).value;
      var baked := Baked(targetArch, app, web, f).value;
      if targetArch == "wasm32" then
        && (Settles(overlay, path) ==> At(baked, path) == At(overlay, path))
        && (At(overlay, path) == None && !Cuts(overlay, path) ==> At(baked, path) == At(mine, path))
      else baked == mine
  {
    hide Merged, At, Cuts;
    MergedAt(f.parse(app).value, f.parse(web).value, path);
    PlainOver(f.parse(app).value, f.parse(web).value, path);
  }

  lemma PlainOver(a: Value, b: Value, path: seq<Key>)
    ensures Settles(b, path) ==> At(Merged(a, b), path) == At(b, path)
  {
    if Settles(b, path) { NamedWins(a, b, path); }
  }

  /**
   A bake: the text the target reads, every reference in the document it stands for, and what the
   environment answers; a web build answers nothing.
   */
  method BakeFor(targetArch: string, app: string, web: string, env: map<string, string>, f: Format)
    returns (r: Result<Bake, BakeError>)
    requires Sound(f)
    ensures match Baked(targetArch, app, web, f)
      case Failure(e) => r == Failure(e)
      case Success(document) =>
        match if IsWeb(targetArch) then f.show(document) else Success(app)
        case Failure(e) => r == Failure(e)
        case Success(text) =>
          && r.Success? && r.value.document == text && r.value.refs == Refs(document, "")
          && if IsWeb(targetArch) then r.value.resolved == [] else Resolves(r.value.resolved, Refs(document, ""), env)
  {
    hide Refs, Merged, Wf, Resolves;
    var parsed := f.parse(app);
    if parsed.Failure? { return Failure(parsed.error); }
    var document, text := parsed.value, app;
    assert Wf(document);
    if IsWeb(targetArch) {
      var over := f.parse(web);
      if over.Failure? { return Failure(over.error); }
      MergedWf(document, over.value);
      document := Merge(document, over.value);
      var shown := f.show(document);
      if shown.Failure? { return Failure(shown.error); }
      text := shown.value;
    }
    var refs := CollectRefs(document, "", []);
    assert refs == Refs(document, "");
    var resolved: seq<(string, string)> := [];
    if !IsWeb(targetArch) {
      var names := NamesOfRefs(refs);
      names := Dedup(names);
      resolved := Lookup(names, refs, env);
    }
    r := Success(Bake(text, refs, resolved));
  }

  /** The names referenced, sorted. */
  method NamesOfRefs(refs: seq<Ref>) returns (names: seq<string>)
    ensures Sorted(names) && forall name :: name in names <==> Referenced(refs, name)
  {
    var all := seq(|refs|, i requires 0 <= i < |refs| => refs[i].1);
    names := Sort(all);
    forall name ensures name in names <==> Referenced(refs, name) {
      assert name in names <==> name in multiset(names);
      assert name in all <==> name in multiset(all);
      if name in all {
        var i :| 0 <= i < |all| && all[i] == name;
        assert refs[i].1 == name;
      }
      if Referenced(refs, name) {
        var i :| 0 <= i < |refs| && refs[i].1 == name;
        assert all[i] == name;
      }
    }
  }
}

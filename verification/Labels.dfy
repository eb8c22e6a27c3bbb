// Exclude labels of the application outage scenario: three input forms, one list of match expressions.

module Labels {
  import opened Text

  /** What a dictionary maps a key to; scalars and list items are given by their `str`. */
  datatype Value = Null | Scalar(item: string) | Items(items: seq<string>)

  datatype Entry = Entry(key: string, value: Value)

  /** The forms of the option. Nothing is None or another false scalar, Plain the `str` of a true one. */
  datatype Label = Nothing | Dict(entries: seq<Entry>) | Selectors(selectors: seq<string>) | Plain(line: string)

  datatype Expression = Expression(key: string, values: seq<string>)

  // ---- Python's `strip`

  predicate Space(c: char) { c == ' ' || '\t' <= c <= '\r' || '\U{1C}' <= c <= '\U{1F}' }

  /** White space is what Python takes for it among the first 128 characters. */
  lemma SpacesAre(c: char)
    ensures Space(c) <==> c as int in {9, 10, 11, 12, 13, 28, 29, 30, 31, 32}
  {
  }

  predicate Blank(s: string) { forall c :: c in s ==> Space(c) }

  predicate Trimmed(s: string) { s != "" && !Space(s[0]) && !Space(s[|s| - 1]) }

  function StripLeft(s: string): (r: string)
    ensures r != "" ==> !Space(r[0])
  {
    if s != "" && Space(s[0]) then StripLeft(s[1..]) else s
  }

  function StripRight(s: string): (r: string)
    ensures r <= s
    ensures r != "" ==> !Space(r[|r| - 1])
  {
    if s != "" && Space(s[|s| - 1]) then StripRight(s[..|s| - 1]) else s
  }

  function Strip(s: string): (r: string)
    ensures r == "" || Trimmed(r)
  {
    StripRight(StripLeft(s))
  }

  lemma {:induction false} StripLeftBlank(pad: string, s: string)
    requires Blank(pad)
    ensures StripLeft(pad + s) == StripLeft(s)
  {
    if pad == "" {
      assert pad + s == s;
    } else {
      assert pad[0] in pad && (pad + s)[1..] == pad[1..] + s;
      StripLeftBlank(pad[1..], s);
    }
  }

  lemma {:induction false} StripRightBlank(s: string, pad: string)
    requires Blank(pad)
    ensures StripRight(s + pad) == StripRight(s)
  {
    if pad == "" {
      assert s + pad == s;
    } else {
      assert pad[|pad| - 1] in pad && (s + pad)[..|s + pad| - 1] == s + pad[..|pad| - 1];
      StripRightBlank(s, pad[..|pad| - 1]);
    }
  }

  /** Stripping undoes any padding of a trimmed text. */
  lemma StripPadded(before: string, s: string, after: string)
    requires Blank(before) && Blank(after) && Trimmed(s)
    ensures Strip(before + s + after) == s
  {
    assert before + s + after == before + (s + after);
    StripLeftBlank(before, s + after);
    assert (s + after)[0] == s[0];
    StripRightBlank(s, after);
  }

  // ---- What is built

  /** `[str(v).strip() for v in values if str(v).strip()]`. */
  function Clean(items: seq<string>): (r: seq<string>)
    ensures forall i :: 0 <= i < |r| ==> Trimmed(r[i])
  {
    if items == [] then []
    else Clean(items[..|items| - 1]) + (var v := Strip(items[|items| - 1]); if v == "" then [] else [v])
  }

  /** The expression of one key, if any. The key is tested before it is stripped. */
  function OfEntry(key: string, value: Value): seq<Expression>
  {
    if key == "" || value.Null? then []
    else
      var cleaned := Clean(if value.Items? then value.items else [value.item]);
      if cleaned == [] then [] else [Expression(Strip(key), cleaned)]
  }

  /** The expression of one `key=v1|v2` text, if any. A value without a usable part is taken whole. */
  function OfSelector(selector: string): seq<Expression>
  {
    if '=' !in selector then []
    else
      var cut := SplitOnce(selector, '=');
      var items := Clean(Split(cut[1], '|'));
      OfEntry(cut[0], if items == [] then Scalar(cut[1]) else Items(items))
  }

  function OfEntries(entries: seq<Entry>): seq<Expression>
  {
    if entries == [] then []
    else OfEntries(entries[..|entries| - 1]) + OfEntry(entries[|entries| - 1].key, entries[|entries| - 1].value)
  }

  function OfSelectors(selectors: seq<string>): seq<Expression>
  {
    if selectors == [] then []
    else OfSelectors(selectors[..|selectors| - 1]) + OfSelector(selectors[|selectors| - 1])
  }

  function StripAll(parts: seq<string>): (r: seq<string>)
    ensures |r| == |parts| && forall i :: 0 <= i < |r| ==> r[i] == Strip(parts[i])
  {
    if parts == [] then [] else StripAll(parts[..|parts| - 1]) + [Strip(parts[|parts| - 1])]
  }

  function Expressions(exclude: Label): seq<Expression>
  {
    match exclude
    case Nothing => []
    case Dict(entries) => OfEntries(entries)
    case Selectors(selectors) => OfSelectors(selectors)
    case Plain(line) => OfSelectors(StripAll(Split(line, ',')))
  }

  lemma NothingToRead()
    ensures Clean(Split("", '|')) == [] && OfSelectors(StripAll(Split("", ','))) == []
    ensures OfEntries([]) == [] && OfSelectors([]) == []
  {
    assert StripAll([""]) == [""];
    assert [""][..0] == [];
  }

  lemma EntriesSnoc(entries: seq<Entry>, e: Entry)
    ensures OfEntries(entries + [e]) == OfEntries(entries) + OfEntry(e.key, e.value)
  {
    assert (entries + [e])[..|entries|] == entries;
  }

  lemma SelectorsSnoc(selectors: seq<string>, selector: string)
    ensures OfSelectors(selectors + [selector]) == OfSelectors(selectors) + OfSelector(selector)
  {
    assert (selectors + [selector])[..|selectors|] == selectors;
  }

  // ---- The code

  /** The nested helper `_append_expr`. */
  method AppendExpr(expressions: seq<Expression>, key: string, value: Value) returns (extended: seq<Expression>)
    ensures extended == expressions + OfEntry(key, value)
  {
    extended := expressions;
    if key == "" || value.Null? {
      return;
    }
    var values := if value.Items? then value.items else [value.item];
    var cleaned: seq<string> := [];
    for i := 0 to |values|
      invariant cleaned == Clean(values[..i])
    {
      assert values[..i + 1][..i] == values[..i];
      var v := Strip(values[i]);
      if v != "" {
        cleaned := cleaned + [v];
      }
    }
    assert values[..|values|] == values;
    if cleaned != [] {
      extended := extended + [Expression(Strip(key), cleaned)];
    }
  }

  /** `_build_exclude_expressions`. */
  method BuildExcludeExpressions(exclude: Label) returns (expressions: seq<Expression>)
    ensures expressions == Expressions(exclude)
  {
    hide Clean, Split, Join, StripAll, Strip, OfEntry, IndexOf, OfEntries, OfSelectors;
    NothingToRead();
    expressions := [];
    if exclude.Nothing? || (exclude.Plain? && exclude.line == "") {
      return;
    }
    if exclude.Dict? {
      var entries := exclude.entries;
      for i := 0 to |entries|
        invariant expressions == OfEntries(entries[..i])
      {
        EntriesSnoc(entries[..i], entries[i]);
        assert entries[..i + 1] == entries[..i] + [entries[i]];
        expressions := AppendExpr(expressions, entries[i].key, entries[i].value);
      }
      assert entries[..|entries|] == entries;
      return;
    }
    var selectors := if exclude.Selectors? then exclude.selectors else StripAll(Split(exclude.line, ','));
    for i := 0 to |selectors|
      invariant expressions == OfSelectors(selectors[..i])
    {
      SelectorsSnoc(selectors[..i], selectors[i]);
      assert selectors[..i + 1] == selectors[..i] + [selectors[i]];
      var selector := selectors[i];
      if selector == "" || '=' !in selector {
        continue;
      }
      var cut := SplitOnce(selector, '=');
      var key, value := cut[0], cut[1];
      var items := if value == "" then [] else Clean(Split(value, '|'));
      expressions := AppendExpr(expressions, key, if items == [] then Scalar(value) else Items(items));
    }
    assert selectors[..|selectors|] == selectors;
  }

  // ---- The three forms agree

  /** A text written with white space around it. */
  datatype Padded = Padded(before: string, text: string, after: string)

  datatype Term = Term(key: Padded, values: seq<Padded>)

  function Show(p: Padded): string { p.before + p.text + p.after }

  function ShowEach(ps: seq<Padded>): (r: seq<string>)
    ensures |r| == |ps| && forall i :: 0 <= i < |r| ==> r[i] == Show(ps[i])
  {
    if ps == [] then [] else ShowEach(ps[..|ps| - 1]) + [Show(ps[|ps| - 1])]
  }

  function Texts(ps: seq<Padded>): (r: seq<string>)
    ensures |r| == |ps| && forall i :: 0 <= i < |r| ==> r[i] == ps[i].text
  {
    if ps == [] then [] else Texts(ps[..|ps| - 1]) + [ps[|ps| - 1].text]
  }

  /** `key=v1|v2`, with the padding. */
  function ShowTerm(t: Term): string { Show(t.key) + ['='] + Join(ShowEach(t.values), '|') }

  function ShowTerms(ts: seq<Term>): (r: seq<string>)
    ensures |r| == |ts| && forall i :: 0 <= i < |r| ==> r[i] == ShowTerm(ts[i])
  {
    if ts == [] then [] else ShowTerms(ts[..|ts| - 1]) + [ShowTerm(ts[|ts| - 1])]
  }

  function AsEntries(ts: seq<Term>): seq<Entry>
  {
    if ts == [] then []
    else AsEntries(ts[..|ts| - 1]) + [Entry(Show(ts[|ts| - 1].key), Items(ShowEach(ts[|ts| - 1].values)))]
  }

  /** What the terms say: their keys with their values, in order. */
  function Intended(ts: seq<Term>): (es: seq<Expression>)
    ensures |es| == |ts|
    ensures forall i :: 0 <= i < |es| ==>
              && es[i].key == ts[i].key.text && |es[i].values| == |ts[i].values|
              && forall j :: 0 <= j < |es[i].values| ==> es[i].values[j] == ts[i].values[j].text
  {
    if ts == [] then []
    else Intended(ts[..|ts| - 1]) + [Expression(ts[|ts| - 1].key.text, Texts(ts[|ts| - 1].values))]
  }

  predicate Tidy(p: Padded) { Blank(p.before) && Trimmed(p.text) && Blank(p.after) }

  /** Terms that can be written down: no `=` in a key, no `|` in a value, at least one value. */
  predicate Writable(t: Term)
  {
    && Tidy(t.key) && '=' !in t.key.text
    && t.values != []
    && forall i :: 0 <= i < |t.values| ==> Tidy(t.values[i]) && '|' !in t.values[i].text
  }

  /** In a single line, commas separate terms and so must not occur inside one. */
  predicate CommaFree(t: Term)
  {
    ',' !in t.key.text && forall i :: 0 <= i < |t.values| ==> ',' !in t.values[i].text
  }

  lemma {:induction false} CleanShown(ps: seq<Padded>)
    requires forall i :: 0 <= i < |ps| ==> Tidy(ps[i])
    ensures Clean(ShowEach(ps)) == Texts(ps)
  {
    if ps != [] {
      var last := ps[|ps| - 1];
      CleanShown(ps[..|ps| - 1]);
      StripPadded(last.before, last.text, last.after);
      assert ShowEach(ps)[..|ps| - 1] == ShowEach(ps[..|ps| - 1]);
    }
  }

  lemma {:induction false} CleanTwice(items: seq<string>)
    requires forall i :: 0 <= i < |items| ==> Trimmed(items[i])
    ensures Clean(items) == items
  {
    if items != [] {
      var init, last := items[..|items| - 1], items[|items| - 1];
      CleanTwice(init);
      hide Strip;
      StripPadded("", last, "");
      assert "" + last + "" == last;
      assert items == init + [last];
    }
  }

  lemma ShownWithout(p: Padded, c: char)
    requires Tidy(p) && c !in p.text && !Space(c)
    ensures c !in Show(p)
  {
    assert c !in p.before && c !in p.after;
  }

  lemma {:induction false} JoinWithout(parts: seq<string>, sep: char, c: char)
    requires sep != c && forall i :: 0 <= i < |parts| ==> c !in parts[i]
    ensures c !in Join(parts, sep)
  {
    if |parts| > 1 {
      JoinWithout(parts[1..], sep, c);
      assert c !in parts[0];
    }
  }

  lemma ReadSelector(key: string, value: string)
    requires '=' !in key
    ensures var items := Clean(Split(value, '|'));
            OfSelector(key + ['='] + value) == OfEntry(key, if items == [] then Scalar(value) else Items(items))
  {
    var s := key + ['='] + value;
    IndexAround(key, value, '=');
    assert s[|key|] == '=' && s[..|key|] == key && s[|key| + 1..] == value;
  }

  /** One written term reads back as its key and values. */
  lemma TermReads(t: Term)
    requires Writable(t)
    ensures OfSelector(ShowTerm(t)) == [Expression(t.key.text, Texts(t.values))]
  {
    hide OfSelector, Split, Join, Clean, Strip, ShowEach, Texts;
    ShownWithout(t.key, '=');
    ShownSplits(t.values);
    CleanShown(t.values);
    TextsAreClean(t.values);
    ReadSelector(Show(t.key), Join(ShowEach(t.values), '|'));
    EntryReads(t.key, Texts(t.values));
  }

  lemma EntryReads(key: Padded, values: seq<string>)
    requires Tidy(key) && values != [] && Clean(values) == values
    ensures OfEntry(Show(key), Items(values)) == [Expression(key.text, values)]
  {
    StripPadded(key.before, key.text, key.after);
  }

  lemma ShownSplits(values: seq<Padded>)
    requires values != [] && forall i :: 0 <= i < |values| ==> Tidy(values[i]) && '|' !in values[i].text
    ensures Split(Join(ShowEach(values), '|'), '|') == ShowEach(values)
  {
    hide Split, Join, Show, Tidy, ShowEach;
    forall p | p in ShowEach(values) ensures '|' !in p {
      var i :| 0 <= i < |values| && ShowEach(values)[i] == p;
      ShownWithout(values[i], '|');
    }
    SplitJoin(ShowEach(values), '|');
  }

  lemma TextsAreClean(values: seq<Padded>)
    requires forall i :: 0 <= i < |values| ==> Tidy(values[i])
    ensures Clean(Texts(values)) == Texts(values)
  {
    hide Clean, Texts, Trimmed, Blank;
    forall i | 0 <= i < |values| ensures Trimmed(Texts(values)[i]) {
      assert Tidy(values[i]);
    }
    CleanTwice(Texts(values));
  }

  /** The list form means its terms. */
  lemma {:induction false} ListFormReads(ts: seq<Term>)
    requires forall i :: 0 <= i < |ts| ==> Writable(ts[i])
    ensures OfSelectors(ShowTerms(ts)) == Intended(ts)
  {
    if ts != [] {
      ListFormReads(ts[..|ts| - 1]);
      TermReads(ts[|ts| - 1]);
      assert ShowTerms(ts)[..|ts| - 1] == ShowTerms(ts[..|ts| - 1]);
    }
  }

  /** The dictionary form means its terms; here keys and values may hold any character. */
  lemma {:induction false} DictFormReads(ts: seq<Term>)
    requires forall i :: 0 <= i < |ts| ==>
               Tidy(ts[i].key) && ts[i].values != [] && forall j :: 0 <= j < |ts[i].values| ==> Tidy(ts[i].values[j])
    ensures OfEntries(AsEntries(ts)) == Intended(ts)
  {
    if ts != [] {
      var last := ts[|ts| - 1];
      DictFormReads(ts[..|ts| - 1]);
      CleanShown(last.values);
      StripPadded(last.key.before, last.key.text, last.key.after);
    }
  }

  /** The term as it stands after the line was cut at commas and the parts stripped. */
  function Outer(t: Term): Term
  {
    if t.values == [] then t
    else
      var n := |t.values| - 1;
      Term(t.key.(before := ""), t.values[n := t.values[n].(after := "")])
  }

  lemma {:induction false} JoinLast(parts: seq<string>, last: string, pad: string, c: char)
    ensures Join(parts + [last + pad], c) == Join(parts + [last], c) + pad
  {
    if parts != [] {
      JoinLast(parts[1..], last, pad, c);
      assert (parts + [last + pad])[1..] == parts[1..] + [last + pad];
      assert (parts + [last])[1..] == parts[1..] + [last];
    }
  }

  lemma {:induction false} JoinEnd(parts: seq<string>, last: string, c: char)
    requires last != ""
    ensures var s := Join(parts + [last], c); s != "" && s[|s| - 1] == last[|last| - 1]
  {
    if parts != [] {
      JoinEnd(parts[1..], last, c);
      assert (parts + [last])[1..] == parts[1..] + [last];
    }
  }

  /** All of a term but the padding at its ends. */
  function Core(t: Term): string
    requires t.values != []
  {
    var n := |t.values| - 1;
    t.key.text + (t.key.after + ['=']) + Join(ShowEach(t.values[..n]) + [t.values[n].before + t.values[n].text], '|')
  }

  lemma ShowAroundCore(t: Term)
    requires t.values != []
    ensures ShowTerm(t) == t.key.before + Core(t) + t.values[|t.values| - 1].after
  {
    var last := t.values[|t.values| - 1];
    var init, core := ShowEach(t.values[..|t.values| - 1]), last.before + last.text;
    assert ShowEach(t.values) == init + [core + last.after];
    JoinLast(init, core, last.after, '|');
  }

  lemma OuterIsCore(t: Term)
    requires Writable(t)
    ensures ShowTerm(Outer(t)) == Core(t) && Writable(Outer(t))
  {
    var n := |t.values| - 1;
    assert Outer(t).values[..n] == t.values[..n];
    ShowAroundCore(Outer(t));
    assert Core(Outer(t)) == Core(t);
    assert "" + Core(t) + "" == Core(t);
  }

  lemma CoreTrimmed(t: Term)
    requires Writable(t)
    ensures Trimmed(Core(t))
  {
    var last := t.values[|t.values| - 1];
    assert Tidy(last);
    JoinEnd(ShowEach(t.values[..|t.values| - 1]), last.before + last.text, '|');
    assert Core(t)[0] == t.key.text[0];
  }

  lemma StripTerm(t: Term)
    requires Writable(t)
    ensures Strip(ShowTerm(t)) == ShowTerm(Outer(t)) && Writable(Outer(t))
  {
    hide ShowTerm, Strip, Core, Outer;
    ShowAroundCore(t);
    OuterIsCore(t);
    CoreTrimmed(t);
    assert Tidy(t.values[|t.values| - 1]);
    StripPadded(t.key.before, Core(t), t.values[|t.values| - 1].after);
  }

  function OuterEach(ts: seq<Term>): (r: seq<Term>)
    ensures |r| == |ts| && forall i :: 0 <= i < |r| ==> r[i] == Outer(ts[i])
  {
    if ts == [] then [] else OuterEach(ts[..|ts| - 1]) + [Outer(ts[|ts| - 1])]
  }

  lemma {:induction false} OuterMeans(ts: seq<Term>)
    requires forall i :: 0 <= i < |ts| ==> Writable(ts[i])
    ensures Intended(OuterEach(ts)) == Intended(ts)
  {
    if ts != [] {
      OuterMeans(ts[..|ts| - 1]);
      assert Texts(Outer(ts[|ts| - 1]).values) == Texts(ts[|ts| - 1].values);
      assert OuterEach(ts)[..|ts| - 1] == OuterEach(ts[..|ts| - 1]);
    }
  }

  lemma TermWithoutComma(t: Term)
    requires Writable(t) && CommaFree(t)
    ensures ',' !in ShowTerm(t)
  {
    ShownWithout(t.key, ',');
    forall i | 0 <= i < |t.values| ensures ',' !in ShowEach(t.values)[i] { ShownWithout(t.values[i], ','); }
    JoinWithout(ShowEach(t.values), '|', ',');
  }

  /** Dictionary, list and single line agree, whatever white space surrounds keys and values: each
      yields exactly the intended expressions in order. `=` is harmless in a value and `|` in a key. */
  lemma FormsAgree(ts: seq<Term>)
    requires ts != [] && forall i :: 0 <= i < |ts| ==> Writable(ts[i]) && CommaFree(ts[i])
    ensures Expressions(Dict(AsEntries(ts))) == Intended(ts)
    ensures Expressions(Selectors(ShowTerms(ts))) == Intended(ts)
    ensures Expressions(Plain(Join(ShowTerms(ts), ','))) == Intended(ts)
  {
    DictFormReads(ts);
    ListFormReads(ts);
    LineReads(ts);
  }

  lemma LineReads(ts: seq<Term>)
    requires ts != [] && forall i :: 0 <= i < |ts| ==> Writable(ts[i]) && CommaFree(ts[i])
    ensures OfSelectors(StripAll(Split(Join(ShowTerms(ts), ','), ','))) == Intended(ts)
  {
    hide Split, Join, Strip, StripAll, ShowTerm, ShowTerms, Intended, OfSelectors, Outer, OuterEach, Writable,
      CommaFree;
    var shown, outer := ShowTerms(ts), OuterEach(ts);
    forall p | p in shown ensures ',' !in p {
      var i :| 0 <= i < |shown| && shown[i] == p;
      TermWithoutComma(ts[i]);
    }
    SplitJoin(shown, ',');
    forall i | 0 <= i < |ts| ensures StripAll(shown)[i] == ShowTerms(outer)[i] && Writable(outer[i]) {
      StripTerm(ts[i]);
    }
    assert StripAll(shown) == ShowTerms(outer);
    ListFormReads(outer);
    OuterMeans(ts);
  }

  // ---- Every input

  /** An expression fit for a network policy. */
  predicate Normal(e: Expression)
  {
    (e.key == "" || Trimmed(e.key)) && e.values != [] && forall i :: 0 <= i < |e.values| ==> Trimmed(e.values[i])
  }

  lemma {:induction false} EntriesNormal(entries: seq<Entry>)
    ensures forall i :: 0 <= i < |OfEntries(entries)| ==> Normal(OfEntries(entries)[i])
  {
    if entries != [] { EntriesNormal(entries[..|entries| - 1]); }
  }

  lemma {:induction false} SelectorsNormal(selectors: seq<string>)
    ensures forall i :: 0 <= i < |OfSelectors(selectors)| ==> Normal(OfSelectors(selectors)[i])
  {
    if selectors != [] { SelectorsNormal(selectors[..|selectors| - 1]); }
  }

  function AsDict(es: seq<Expression>): seq<Entry>
  {
    if es == [] then [] else AsDict(es[..|es| - 1]) + [Entry(es[|es| - 1].key, Items(es[|es| - 1].values))]
  }

  function WithKey(es: seq<Expression>): seq<Expression>
  {
    if es == [] then []
    else WithKey(es[..|es| - 1]) + (if es[|es| - 1].key == "" then [] else [es[|es| - 1]])
  }

  lemma {:induction false} RereadEntries(es: seq<Expression>)
    requires forall i :: 0 <= i < |es| ==> Normal(es[i])
    ensures OfEntries(AsDict(es)) == WithKey(es)
  {
    if es != [] {
      var init, last := es[..|es| - 1], es[|es| - 1];
      RereadEntries(init);
      RereadOne(last);
      hide OfEntry, Normal, OfEntries;
      EntriesSnoc(AsDict(init), Entry(last.key, Items(last.values)));
    } else {
      assert OfEntries([]) == [];
    }
  }

  lemma RereadOne(e: Expression)
    requires Normal(e)
    ensures OfEntry(e.key, Items(e.values)) == if e.key == "" then [] else [e]
  {
    hide Strip, Clean;
    CleanTwice(e.values);
    if e.key != "" {
      StripPadded("", e.key, "");
      assert "" + e.key + "" == e.key;
    }
  }

  /** Whatever the input, every expression has a trimmed key and trimmed nonempty values, and reading
      the result again changes nothing but to drop expressions with an empty key. */
  lemma ResultIsNormal(exclude: Label)
    ensures forall i :: 0 <= i < |Expressions(exclude)| ==> Normal(Expressions(exclude)[i])
    ensures Expressions(Dict(AsDict(Expressions(exclude)))) == WithKey(Expressions(exclude))
  {
    match exclude {
      case Nothing =>
      case Dict(entries) => EntriesNormal(entries);
      case Selectors(selectors) => SelectorsNormal(selectors);
      case Plain(line) => SelectorsNormal(StripAll(Split(line, ',')));
    }
    RereadEntries(Expressions(exclude));
  }

  // ---- Values made of bars

  /** Nothing but bars and white space. */
  predicate OnlyBars(v: string) { forall c :: c in v ==> c == '|' || Space(c) }

  lemma {:induction false} StripLeftKeeps(s: string, c: char)
    requires c in s && !Space(c)
    ensures c in StripLeft(s)
  {
    if Space(s[0]) {
      assert s == [s[0]] + s[1..];
      StripLeftKeeps(s[1..], c);
    }
  }

  lemma {:induction false} StripRightKeeps(s: string, c: char)
    requires c in s && !Space(c)
    ensures c in StripRight(s)
  {
    var n := |s| - 1;
    if Space(s[n]) {
      assert s == s[..n] + [s[n]];
      StripRightKeeps(s[..n], c);
    }
  }

  lemma StripKeeps(s: string, c: char)
    requires c in s && !Space(c)
    ensures c in Strip(s)
  {
    StripLeftKeeps(s, c);
    StripRightKeeps(StripLeft(s), c);
  }

  lemma StripEmptyIffBlank(s: string)
    ensures Strip(s) == "" <==> Blank(s)
  {
    if Blank(s) {
      StripBlank(s);
    } else {
      var c :| c in s && !Space(c);
      StripKeeps(s, c);
    }
  }

  lemma {:induction false} CleanEmptyIff(parts: seq<string>)
    ensures Clean(parts) == [] <==> AllBlank(parts)
  {
    hide Blank, Strip;
    if parts != [] {
      CleanEmptyIff(parts[..|parts| - 1]);
      StripEmptyIffBlank(parts[|parts| - 1]);
    }
  }

  predicate AllBlank(parts: seq<string>) { forall i :: 0 <= i < |parts| ==> Blank(parts[i]) }

  lemma AllBlankCons(part: string, rest: seq<string>)
    ensures AllBlank([part] + rest) <==> Blank(part) && AllBlank(rest)
  {
    hide Blank;
    assert forall i :: 0 <= i < |rest| ==> ([part] + rest)[i + 1] == rest[i];
    assert ([part] + rest)[0] == part;
  }

  lemma {:induction false} BlankPartsIff(v: string)
    ensures AllBlank(Split(v, '|')) <==> OnlyBars(v)
  {
    if v != "" {
      var rest := Split(v[1..], '|');
      BlankPartsIff(v[1..]);
      assert v == [v[0]] + v[1..];
      SplitCons(v, '|');
      hide Split, Blank, AllBlank;
      assert rest == [rest[0]] + rest[1..];
      AllBlankCons("", rest);
      AllBlankCons(rest[0], rest[1..]);
      AllBlankCons([v[0]] + rest[0], rest[1..]);
      BlankCons(v[0], rest[0]);
      NothingIsBlank();
    }
  }

  lemma NothingIsBlank()
    ensures Blank("")
  {
  }

  lemma BlankCons(c: char, s: string)
    ensures Blank([c] + s) <==> Space(c) && Blank(s)
  {
    assert forall d :: d in s ==> d in [c] + s;
    assert c in [c] + s;
  }

  /** A value has no usable part exactly when it is nothing but bars and white space. */
  lemma NoPartIff(v: string)
    ensures Clean(Split(v, '|')) == [] <==> OnlyBars(v)
  {
    CleanEmptyIff(Split(v, '|'));
    BlankPartsIff(v);
  }

  lemma {:induction false} CleanDropsNothingElse(parts: seq<string>, c: char)
    requires forall i :: 0 <= i < |parts| ==> c !in parts[i]
    ensures forall i :: 0 <= i < |Clean(parts)| ==> c !in Clean(parts)[i]
  {
    if parts != [] {
      var last := parts[|parts| - 1];
      CleanDropsNothingElse(parts[..|parts| - 1], c);
      StripInside(last);
      assert forall d :: d in Strip(last) ==> d in last;
    }
  }

  lemma {:induction false} StripLeftInside(s: string)
    ensures forall c :: c in StripLeft(s) ==> c in s
  {
    if s != "" && Space(s[0]) {
      StripLeftInside(s[1..]);
      assert s == [s[0]] + s[1..];
    }
  }

  lemma StripInside(s: string)
    ensures forall c :: c in Strip(s) ==> c in s
  {
    StripLeftInside(s);
    var l, r := StripLeft(s), Strip(s);
    assert r <= l;
    forall c | c in r ensures c in l {
      var i :| 0 <= i < |r| && r[i] == c;
      assert l[i] == c;
    }
  }

  /** A bar ends up in a label value exactly when the value is nothing but bars and white space and
      has a bar; it is then taken whole. Otherwise bars only separate. */
  lemma BarsAreTakenWhole(key: string, value: string)
    requires key != "" && '=' !in key
    ensures var es := OfSelector(key + ['='] + value);
            && ((exists e, v :: e in es && v in e.values && '|' in v) <==> '|' in value && OnlyBars(value))
            && ('|' in value && OnlyBars(value) ==> es == [Expression(Strip(key), [Strip(value)])])
            && (OnlyBars(value) && '|' !in value ==> es == [])
            && (!OnlyBars(value) ==> es == [Expression(Strip(key), Clean(Split(value, '|')))])
  {
    hide OfSelector, Split, Strip, Clean, OnlyBars;
    var parts := Split(value, '|');
    ReadSelector(key, value);
    NoPartIff(value);
    if OnlyBars(value) {
      OnlyBarsRead(key, value);
    } else {
      CleanTwice(Clean(parts));
      assert forall i :: 0 <= i < |parts| ==> parts[i] in parts;
      CleanDropsNothingElse(parts, '|');
    }
  }

  lemma OnlyBarsRead(key: string, value: string)
    requires key != "" && OnlyBars(value)
    ensures OfEntry(key, Scalar(value)) == if '|' in value then [Expression(Strip(key), [Strip(value)])] else []
    ensures '|' in value ==> '|' in Strip(value)
  {
    if '|' in value {
      StripKeeps(value, '|');
    } else {
      StripBlank(value);
    }
    hide Strip;
    CleanOne(value);
  }

  /** Cleaning works item by item: a blank one goes, any other one is stripped. */
  lemma {:induction false} CleanAdds(a: seq<string>, b: seq<string>)
    ensures Clean(a + b) == Clean(a) + Clean(b)
  {
    if b == [] {
      assert a + b == a;
    } else {
      hide Strip;
      CleanAdds(a, b[..|b| - 1]);
      assert (a + b)[..|a + b| - 1] == a + b[..|b| - 1];
    }
  }

  /** What one entry of a dictionary gives: nothing for a null or without a key, for a single value what a
      list of just this value gives, and for a list its items that are not blank, if any. */
  lemma EntryMeans(key: string, value: Value)
    ensures value.Null? || key == "" ==> OfEntry(key, value) == []
    ensures value.Scalar? ==> OfEntry(key, value) == OfEntry(key, Items([value.item]))
    ensures value.Items? ==> (OfEntry(key, value) == [] <==> key == "" || AllBlank(value.items))
    ensures OfEntry(key, value) != [] ==> |OfEntry(key, value)| == 1 && OfEntry(key, value)[0].key == Strip(key)
  {
    hide Clean, Strip, Blank;
    if value.Items? {
      CleanEmptyIff(value.items);
    }
  }

  lemma CleanOneIff(v: string)
    ensures Clean([v]) == if Blank(v) then [] else [Strip(v)]
  {
    CleanOne(v);
    StripEmptyIffBlank(v);
  }

  lemma CleanOne(v: string)
    ensures Clean([v]) == if Strip(v) == "" then [] else [Strip(v)]
  {
    assert [v][..0] == [];
  }

  lemma StripBlank(pad: string)
    requires Blank(pad)
    ensures Strip(pad) == ""
  {
    StripLeftBlank(pad, "");
    assert pad + "" == pad;
  }

  // ---- Keys that are only white space

  function KeyOf(selector: string): string { selector[..IndexOf(selector, '=')] }

  function ValueOf(selector: string): string
    requires '=' in selector
  {
    selector[IndexOf(selector, '=') + 1..]
  }

  /** The key is there but only white space, and the value is not. */
  predicate BlankKeyed(selector: string)
  {
    '=' in selector && KeyOf(selector) != "" && Blank(KeyOf(selector)) && !Blank(ValueOf(selector))
  }

  lemma {:induction false} StripLeftAtEquals(a: string, b: string)
    ensures StripLeft(a + ['='] + b) == StripLeft(a) + ['='] + b
  {
    var s := a + ['='] + b;
    if a != "" && Space(a[0]) {
      assert s[0] == a[0] && s[1..] == a[1..] + ['='] + b;
      StripLeftAtEquals(a[1..], b);
    } else {
      assert !Space(s[0]);
    }
  }

  lemma {:induction false} StripRightAtEquals(a: string, b: string)
    ensures StripRight(a + ['='] + b) == a + ['='] + StripRight(b)
  {
    var s := a + ['='] + b;
    if b != "" && Space(b[|b| - 1]) {
      assert s[|s| - 1] == b[|b| - 1] && s[..|s| - 1] == a + ['='] + b[..|b| - 1];
      StripRightAtEquals(a, b[..|b| - 1]);
    } else {
      assert !Space(s[|s| - 1]);
    }
  }

  lemma {:induction false} StripRightDrops(b: string) returns (pad: string)
    ensures Blank(pad) && b == StripRight(b) + pad
  {
    var n := |b| - 1;
    if b != "" && Space(b[n]) {
      pad := StripRightDrops(b[..n]);
      assert b == b[..n] + [b[n]];
      pad := pad + [b[n]];
    } else {
      pad := "";
    }
  }

  lemma StripIgnoresPad(s: string, pad: string)
    requires Blank(pad)
    ensures Strip(s + pad) == Strip(s)
  {
    if Blank(s) {
      StripBlank(s);
      assert Blank(s + pad);
      StripBlank(s + pad);
    } else {
      var c :| c in s && !Space(c);
      StripLeftBefore(s, pad, c);
      StripRightBlank(StripLeft(s), pad);
    }
  }

  lemma {:induction false} StripLeftBefore(s: string, pad: string, c: char)
    requires c in s && !Space(c)
    ensures StripLeft(s + pad) == StripLeft(s) + pad
  {
    if Space(s[0]) {
      assert s == [s[0]] + s[1..];
      assert (s + pad)[0] == s[0] && (s + pad)[1..] == s[1..] + pad;
      StripLeftBefore(s[1..], pad, c);
    } else {
      assert (s + pad)[0] == s[0];
    }
  }

  /** The last part with something appended. */
  function AppendLast(parts: seq<string>, pad: string): (r: seq<string>)
    requires parts != []
    ensures |r| == |parts|
  {
    parts[..|parts| - 1] + [parts[|parts| - 1] + pad]
  }

  lemma AppendLastCons(part: string, rest: seq<string>, pad: string)
    requires rest != []
    ensures AppendLast([part] + rest, pad) == [part] + AppendLast(rest, pad)
  {
    var all := [part] + rest;
    assert all[..|all| - 1] == [part] + rest[..|rest| - 1];
  }

  lemma AppendLastHead(c: char, rest: seq<string>, pad: string)
    requires rest != []
    ensures AppendLast([[c] + rest[0]] + rest[1..], pad) ==
            [[c] + AppendLast(rest, pad)[0]] + AppendLast(rest, pad)[1..]
  {
    if |rest| == 1 {
      assert [c] + (rest[0] + pad) == ([c] + rest[0]) + pad;
    } else {
      AppendLastCons([c] + rest[0], rest[1..], pad);
      AppendLastCons(rest[0], rest[1..], pad);
      assert rest == [rest[0]] + rest[1..];
    }
  }

  lemma {:induction false} SplitAppend(s: string, pad: string, c: char)
    requires c !in pad
    ensures Split(s + pad, c) == AppendLast(Split(s, c), pad)
  {
    hide Split, Join, AppendLast;
    if s == "" {
      assert s + pad == pad;
      SplitWhole(pad, c);
      SplitEmpty(c);
      AppendLastOne("", pad);
      assert "" + pad == pad;
    } else {
      var rest := Split(s[1..], c);
      SplitAppend(s[1..], pad, c);
      assert (s + pad)[0] == s[0] && (s + pad)[1..] == s[1..] + pad;
      SplitCons(s, c);
      SplitCons(s + pad, c);
      if s[0] == c {
        AppendLastCons("", rest, pad);
      } else {
        AppendLastHead(s[0], rest, pad);
      }
    }
  }

  lemma AppendLastOne(part: string, pad: string)
    ensures AppendLast([part], pad) == [part + pad]
  {
  }

  /** White space after the value changes nothing. */
  lemma ValuesIgnorePad(v: string, pad: string)
    requires Blank(pad)
    ensures Clean(Split(v + pad, '|')) == Clean(Split(v, '|'))
  {
    hide Split, Strip;
    var parts := Split(v, '|');
    var init, last := parts[..|parts| - 1], parts[|parts| - 1];
    assert '|' !in pad;
    SplitAppend(v, pad, '|');
    StripIgnoresPad(last, pad);
    assert parts == init + [last];
    CleanSnoc(init, last);
    CleanSnoc(init, last + pad);
  }

  lemma CleanSnoc(items: seq<string>, v: string)
    ensures Clean(items + [v]) == Clean(items) + (if Strip(v) == "" then [] else [Strip(v)])
  {
    assert (items + [v])[..|items|] == items;
  }

  /** Stripping a selector strips the outer ends of its key and its value. */
  lemma StripSelector(key: string, value: string)
    requires '=' !in key
    ensures Strip(key + ['='] + value) == StripLeft(key) + ['='] + StripRight(value) && '=' !in StripLeft(key)
  {
    StripLeftAtEquals(key, value);
    StripRightAtEquals(StripLeft(key), value);
    StripLeftInside(key);
  }

  /** What a selector reads as depends on its key and, past white space at its end, on its value. */
  lemma ReadTrimmed(key: string, value: string)
    requires '=' !in key
    ensures OfSelector(key + ['='] + StripRight(value)) == OfSelector(key + ['='] + value)
  {
    hide OfSelector, Split, Strip, StripRight, Clean;
    ReadSelector(key, value);
    ReadSelector(key, StripRight(value));
    TrimmedValueReads(value);
  }

  lemma TrimmedValueReads(value: string)
    ensures Clean(Split(StripRight(value), '|')) == Clean(Split(value, '|'))
    ensures Clean([StripRight(value)]) == Clean([value])
  {
    hide Split, Strip, StripRight, Clean;
    var pad := StripRightDrops(value);
    ValuesIgnorePad(StripRight(value), pad);
    StripIgnoresPad(StripRight(value), pad);
    CleanOne(value);
    CleanOne(StripRight(value));
  }

  lemma StripTwice(s: string)
    ensures Strip(StripLeft(s)) == Strip(s)
  {
    var l := StripLeft(s);
    assert StripLeft(l) == l;
  }

  /** Read from a list as it stands, or stripped as a part of a line, a selector gives the same
      except when its key is only white space: then it is kept with an empty key, or dropped. */
  lemma StrippedReads(selector: string)
    ensures BlankKeyed(selector) ==>
            |OfSelector(selector)| == 1 && OfSelector(selector)[0].key == "" && OfSelector(Strip(selector)) == []
    ensures !BlankKeyed(selector) ==> OfSelector(Strip(selector)) == OfSelector(selector)
  {
    hide Strip, StripLeft, StripRight, Clean, Split;
    if '=' in selector {
      var key, value := KeyOf(selector), ValueOf(selector);
      assert selector == key + ['='] + value;
      StripSelector(key, value);
      ReadTrimmed(StripLeft(key), value);
      KeyedReads(key, value);
    } else {
      StripInside(selector);
    }
  }

  lemma KeyedReads(key: string, value: string)
    requires '=' !in key && '=' !in StripLeft(key)
    ensures var es, es' := OfSelector(key + ['='] + value), OfSelector(StripLeft(key) + ['='] + value);
            if key != "" && Blank(key) && !Blank(value) then |es| == 1 && es[0].key == "" && es' == [] else es' == es
  {
    hide OfSelector, Split, StripLeft, Strip, Clean;
    ReadSelector(key, value);
    ReadSelector(StripLeft(key), value);
    StripTwice(key);
    EmptyLeftIffBlank(key);
    StripEmptyIffBlank(key);
    ValueReads(value);
  }

  lemma EmptyLeftIffBlank(s: string)
    ensures StripLeft(s) == "" <==> Blank(s)
  {
    if Blank(s) {
      StripLeftBlank(s, "");
      assert s + "" == s;
    } else {
      var c :| c in s && !Space(c);
      StripLeftKeeps(s, c);
    }
  }

  /** A value gives label values exactly when it is not blank. */
  lemma ValueReads(value: string)
    ensures var items := Clean(Split(value, '|'));
            && (Blank(value) ==> items == [] && Clean([value]) == [])
            && (!Blank(value) && items == [] ==> Clean([value]) != [])
            && (items != [] ==> Clean(items) == items)
  {
    hide Split, Strip;
    NoPartIff(value);
    CleanOne(value);
    StripEmptyIffBlank(value);
    CleanTwice(Clean(Split(value, '|')));
  }

  lemma {:induction false} StrippedEachIff(ss: seq<string>)
    ensures |OfSelectors(StripAll(ss))| <= |OfSelectors(ss)|
    ensures |OfSelectors(StripAll(ss))| == |OfSelectors(ss)| <==> forall i :: 0 <= i < |ss| ==> !BlankKeyed(ss[i])
    ensures (forall i :: 0 <= i < |ss| ==> !BlankKeyed(ss[i])) ==> OfSelectors(StripAll(ss)) == OfSelectors(ss)
  {
    hide OfSelector, Strip, BlankKeyed;
    if ss != [] {
      var init, last := ss[..|ss| - 1], ss[|ss| - 1];
      StrippedEachIff(init);
      StrippedReads(last);
      assert ss == init + [last];
      assert StripAll(ss) == StripAll(init) + [Strip(last)];
      hide StripAll, OfSelectors;
      SelectorsSnoc(init, last);
      SelectorsSnoc(StripAll(init), Strip(last));
    }
  }

  /** A list of selectors and the line made of them agree exactly when no selector has a key that is
      only white space (beside a value that is not); otherwise the list gives more expressions. */
  lemma ListAndLineAgreeIff(ss: seq<string>)
    requires ss != [] && forall i :: 0 <= i < |ss| ==> ',' !in ss[i]
    ensures Expressions(Selectors(ss)) == Expressions(Plain(Join(ss, ','))) <==>
            forall i :: 0 <= i < |ss| ==> !BlankKeyed(ss[i])
  {
    hide Split, Join, StripAll, OfSelectors, BlankKeyed;
    forall p | p in ss ensures ',' !in p {
      var i :| 0 <= i < |ss| && ss[i] == p;
    }
    SplitJoin(ss, ',');
    StrippedEachIff(ss);
  }
}

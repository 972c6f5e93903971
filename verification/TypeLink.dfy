/** The tokenising loop of `TypeString`: known type names in a text become links. */
module TypeLink {
  import opened Optionals

  datatype DataType = DataType(name: string, id: string)

  /** A piece of the text; with a `typeId` it is a link. */
  datatype Part = Part(text: string, typeId: Maybe<string>)

  predicate IsWord(c: char) {
    'a' <= c <= 'z' || 'A' <= c <= 'Z' || '0' <= c <= '9' || c == '_'
  }

  predicate OccursAt(s: string, name: string, i: nat) {
    i + |name| <= |s| && s[i..i + |name|] == name
  }

  /** `indexOf`, looking from `i` on. */
  function IndexFrom(s: string, name: string, i: nat): (r: Maybe<nat>)
    ensures r.Some? ==> i <= r.value && OccursAt(s, name, r.value)
    ensures forall j: nat :: i <= j && OccursAt(s, name, j) ==> r.Some? && r.value <= j
    decreases |s| - i
  {
    if i + |name| > |s| then None
    else if OccursAt(s, name, i) then Some(i)
    else IndexFrom(s, name, i + 1)
  }

  /** No word character touches the `n` characters from `i` on. */
  predicate IsWhole(s: string, i: nat, n: nat)
    requires i + n <= |s|
  {
    (i > 0 ==> !IsWord(s[i - 1])) && (i + n < |s| ==> !IsWord(s[i + n]))
  }

  // ---------------------------------------------------------------------------------------------
  // Names and ids
  // ---------------------------------------------------------------------------------------------

  function LongNames(types: seq<DataType>): (names: seq<string>) {
    if types == [] then []
    else (if |types[0].name| > 1 then [types[0].name] else []) + LongNames(types[1..])
  }

  function InsertByLength(name: string, names: seq<string>): (r: seq<string>) {
    if names == [] || |name| >= |names[0]| then [name] + names
    else [names[0]] + InsertByLength(name, names[1..])
  }

  /** The stable sort by descending length. */
  function SortByLength(names: seq<string>): (r: seq<string>) {
    if names == [] then [] else InsertByLength(names[0], SortByLength(names[1..]))
  }

  function SortedNames(types: seq<DataType>): (names: seq<string>) { SortByLength(LongNames(types)) }

  /** Of several types with one name, the last one wins. */
  function IdOf(types: seq<DataType>, name: string): (id: Maybe<string>) {
    if types == [] then None
    else if IdOf(types[1..], name).Some? then IdOf(types[1..], name)
    else if types[0].name == name then Some(types[0].id) else None
  }

  predicate Descending(names: seq<string>) {
    forall i, j :: 0 <= i < j < |names| ==> |names[i]| >= |names[j]|
  }

  lemma {:induction false} InsertPermutes(name: string, names: seq<string>)
    ensures multiset(InsertByLength(name, names)) == multiset(names) + multiset{name}
    ensures forall n :: n in InsertByLength(name, names) ==> n == name || n in names
  {
    if names == [] || |name| >= |names[0]| {
    } else {
      InsertPermutes(name, names[1..]);
      assert names == [names[0]] + names[1..];
    }
  }

  lemma {:induction false} InsertSorts(name: string, names: seq<string>)
    requires Descending(names)
    ensures Descending(InsertByLength(name, names))
  {
    if names == [] || |name| >= |names[0]| {
    } else {
      InsertSorts(name, names[1..]);
      InsertPermutes(name, names[1..]);
      var rest := InsertByLength(name, names[1..]);
      forall k | 0 <= k < |rest|
        ensures |names[0]| >= |rest[k]|
      {
        assert rest[k] == name || rest[k] in names[1..];
      }
    }
  }

  lemma {:induction false} SortSorts(names: seq<string>)
    ensures Descending(SortByLength(names)) && multiset(SortByLength(names)) == multiset(names)
  {
    if names == [] {
    } else {
      SortSorts(names[1..]);
      InsertSorts(names[0], SortByLength(names[1..]));
      InsertPermutes(names[0], SortByLength(names[1..]));
      assert names == [names[0]] + names[1..];
    }
  }

  /** The candidates are exactly the names longer than one character, longest first, and each has an id. */
  lemma SortedNamesAreTheLongNames(types: seq<DataType>, name: string)
    ensures Descending(SortedNames(types))
    ensures name in SortedNames(types) <==> |name| > 1 && exists t :: t in types && t.name == name
    ensures name in SortedNames(types) ==> IdOf(types, name).Some? && DataType(name, IdOf(types, name).value) in types
  {
    SortSorts(LongNames(types));
    assert name in SortedNames(types) <==> name in multiset(SortedNames(types));
    assert name in LongNames(types) <==> name in multiset(LongNames(types));
    LongNamesOf(types, name);
  }

  lemma {:induction false} LongNamesOf(types: seq<DataType>, name: string)
    ensures name in LongNames(types) <==> |name| > 1 && exists t :: t in types && t.name == name
    ensures (exists t :: t in types && t.name == name) ==>
              IdOf(types, name).Some? && DataType(name, IdOf(types, name).value) in types
    ensures IdOf(types, name).Some? ==> DataType(name, IdOf(types, name).value) in types
  {
    if types == [] {
    } else {
      LongNamesOf(types[1..], name);
      assert types == [types[0]] + types[1..];
      assert forall t :: t in types <==> t == types[0] || t in types[1..];
    }
  }

  // ---------------------------------------------------------------------------------------------
  // The loop
  // ---------------------------------------------------------------------------------------------

  datatype Choice = Nowhere | At(index: nat, name: string)

  /** One turn of the inner loop: only the first occurrence of the name is looked at. */
  function Consider(remaining: string, best: Choice, name: string): (r: Choice) {
    var idx := IndexFrom(remaining, name, 0);
    if idx.None? || (best.At? && idx.value >= best.index) then best
    else if IsWhole(remaining, idx.value, |name|) then At(idx.value, name)
    else best
  }

  function Choose(remaining: string, names: seq<string>): (r: Choice) {
    if names == [] then Nowhere
    else Consider(remaining, Choose(remaining, names[..|names| - 1]), names[|names| - 1])
  }

  lemma {:induction false} ChosenOccurs(remaining: string, names: seq<string>)
    ensures var c := Choose(remaining, names);
            c.At? ==> c.name in names && OccursAt(remaining, c.name, c.index)
                      && IsWhole(remaining, c.index, |c.name|) && IndexFrom(remaining, c.name, 0) == Some(c.index)
  {
    if names == [] {
    } else {
      ChosenOccurs(remaining, names[..|names| - 1]);
    }
  }

  function Parts(remaining: string, types: seq<DataType>, names: seq<string>): (r: seq<Part>)
    requires forall name :: name in names ==> |name| > 1
    decreases |remaining|
  {
    if remaining == "" then []
    else
      ChosenOccurs(remaining, names);
      match Choose(remaining, names)
      case Nowhere => [Part(remaining, None)]
      case At(i, name) =>
        (if i > 0 then [Part(remaining[..i], None)] else [])
        + ([Part(name, IdOf(types, name))] + Parts(remaining[i + |name|..], types, names))
  }

  lemma NoParts(types: seq<DataType>, names: seq<string>)
    requires forall name :: name in names ==> |name| > 1
    ensures Parts("", types, names) == []
  {
  }

  lemma {:induction false} PartsUnfold(remaining: string, types: seq<DataType>, names: seq<string>)
    requires remaining != "" && forall name :: name in names ==> |name| > 1
    ensures var c := Choose(remaining, names);
            && (c.Nowhere? ==> Parts(remaining, types, names) == [Part(remaining, None)])
            && (c.At? ==>
                  && c.index + |c.name| <= |remaining|
                  && Parts(remaining, types, names) ==
                     (if c.index > 0 then [Part(remaining[..c.index], None)] else [])
                     + ([Part(c.name, IdOf(types, c.name))] + Parts(remaining[c.index + |c.name|..], types, names)))
  {
    hide Choose, IndexFrom, IdOf, IsWhole;
    ChosenOccurs(remaining, names);
    var c := Choose(remaining, names);
    if c.At? {
      assert c.index + |c.name| <= |remaining|;
      hide OccursAt;
    }
  }

  /** The inner loop: the earliest whole-word first occurrence, the longest name if several share it. */
  method ChooseLink(remaining: string, sortedNames: seq<string>) returns (earliest: Choice)
    ensures earliest == Choose(remaining, sortedNames)
  {
    earliest := Nowhere;
    for k := 0 to |sortedNames|
      invariant earliest == Choose(remaining, sortedNames[..k])
    {
      assert sortedNames[..k + 1][..k] == sortedNames[..k];
      earliest := Consider(remaining, earliest, sortedNames[k]);
    }
    assert sortedNames[..|sortedNames|] == sortedNames;
  }

  lemma LongEnough(types: seq<DataType>)
    ensures forall name :: name in SortedNames(types) ==> |name| > 1
  {
    forall name | name in SortedNames(types)
      ensures |name| > 1
    {
      SortedNamesAreTheLongNames(types, name);
    }
  }

  /** The parts of a text. */
  method TypeStringParts(text: string, types: seq<DataType>) returns (result: seq<Part>)
    ensures forall name :: name in SortedNames(types) ==> |name| > 1
    ensures result == Parts(text, types, SortedNames(types))
  {
    var sortedNames := SortedNames(types);
    LongEnough(types);
    hide SortedNames, Choose, IdOf, Parts, OccursAt, IsWhole, IndexFrom;
    result := [];
    var remaining := text;
    while |remaining| > 0
      invariant result + Parts(remaining, types, sortedNames) == Parts(text, types, sortedNames)
      decreases |remaining|
    {
      var earliest := ChooseLink(remaining, sortedNames);
      ChosenOccurs(remaining, sortedNames);
      PartsUnfold(remaining, types, sortedNames);
      if earliest.Nowhere? {
        result := result + [Part(remaining, None)];
        return;
      }
      ghost var before := result;
      ghost var gap := if earliest.index > 0 then [Part(remaining[..earliest.index], None)] else [];
      ghost var link := [Part(earliest.name, IdOf(types, earliest.name))];
      if earliest.index > 0 {
        result := result + [Part(remaining[..earliest.index], None)];
      }
      result := result + [Part(earliest.name, IdOf(types, earliest.name))];
      assert result == before + gap + link;
      remaining := remaining[earliest.index + |earliest.name|..];
      ghost var rest := Parts(remaining, types, sortedNames);
      assert before + (gap + (link + rest)) == (before + gap + link) + rest;
    }
    NoParts(types, sortedNames);
    assert result + [] == result;
  }

  // ---------------------------------------------------------------------------------------------
  // What the parts are
  // ---------------------------------------------------------------------------------------------

  function Joined(parts: seq<Part>): (s: string) {
    if parts == [] then "" else parts[0].text + Joined(parts[1..])
  }

  lemma {:induction false} JoinedAppend(a: seq<Part>, b: seq<Part>)
    ensures Joined(a + b) == Joined(a) + Joined(b)
  {
    if a == [] {
      assert a + b == b;
    } else {
      assert (a + b)[1..] == a[1..] + b;
      JoinedAppend(a[1..], b);
    }
  }

  lemma PiecesJoin(remaining: string, i: nat, name: string, id: Maybe<string>, rest: seq<Part>)
    requires OccursAt(remaining, name, i) && Joined(rest) == remaining[i + |name|..]
    ensures Joined((if i > 0 then [Part(remaining[..i], None)] else []) + ([Part(name, id)] + rest)) == remaining
  {
    var gap := if i > 0 then [Part(remaining[..i], None)] else [];
    JoinedAppend([Part(name, id)], rest);
    JoinedAppend(gap, [Part(name, id)] + rest);
    assert [Part(name, id)][1..] == [];
    assert Joined(gap) == remaining[..i] && Joined([Part(name, id)]) == name;
    assert remaining == remaining[..i] + (name + remaining[i + |name|..]);
  }

  /** Nothing of the text is lost or added. */
  lemma {:induction false} PartsJoinToText(remaining: string, types: seq<DataType>, names: seq<string>)
    requires forall name :: name in names ==> |name| > 1
    ensures Joined(Parts(remaining, types, names)) == remaining
    decreases |remaining|
  {
    hide Parts, Choose, IndexFrom, IdOf, IsWhole;
    if remaining == "" {
      NoParts(types, names);
    } else {
      PartsUnfold(remaining, types, names);
      ChosenOccurs(remaining, names);
      var c := Choose(remaining, names);
      if c.At? {
        var rest := remaining[c.index + |c.name|..];
        PartsJoinToText(rest, types, names);
        PiecesJoin(remaining, c.index, c.name, IdOf(types, c.name), Parts(rest, types, names));
      }
    }
  }

  /** The choice comes before every other name whose first occurrence is whole, and is at least as long at a tie. */
  lemma {:induction false} ChosenIsFirst(remaining: string, names: seq<string>, k: nat)
    requires Descending(names) && k < |names|
    requires var idx := IndexFrom(remaining, names[k], 0); idx.Some? && IsWhole(remaining, idx.value, |names[k]|)
    ensures var c, idx := Choose(remaining, names), IndexFrom(remaining, names[k], 0).value;
            c.At? && c.index <= idx && (c.index == idx ==> |c.name| >= |names[k]|)
    decreases |names|
  {
    hide IndexFrom, OccursAt, IsWhole;
    var n := |names| - 1;
    ChosenOccurs(remaining, names[..n]);
    if k < n {
      assert names[..n][k] == names[k];
      ChosenIsFirst(remaining, names[..n], k);
    } else if Choose(remaining, names[..n]).At? {
      var j :| 0 <= j < n && names[..n][j] == Choose(remaining, names[..n]).name;
      assert |names[j]| >= |names[n]|;
    }
  }

  /** A name that begins with a word character. */
  predicate StartsAsWord(name: string) { name != "" && IsWord(name[0]) }

  /** At the chosen position no longer name occurs as a whole word. */
  lemma ChosenIsLongest(remaining: string, names: seq<string>, longer: string)
    requires Descending(names) && Choose(remaining, names).At? && longer in names
    ensures var c := Choose(remaining, names);
            |longer| > |c.name| && OccursAt(remaining, longer, c.index) ==> !IsWhole(remaining, c.index, |longer|)
  {
    var c := Choose(remaining, names);
    ChosenOccurs(remaining, names);
    if |longer| > |c.name| && OccursAt(remaining, longer, c.index) && IsWhole(remaining, c.index, |longer|) {
      var k :| 0 <= k < |names| && names[k] == longer;
      var idx := IndexFrom(remaining, longer, 0).value;
      assert longer[..|c.name|] == remaining[c.index..c.index + |longer|][..|c.name|] == c.name;
      assert remaining[idx..idx + |c.name|] == remaining[idx..idx + |longer|][..|c.name|];
      assert OccursAt(remaining, c.name, idx);
      ChosenIsFirst(remaining, names, k);
    }
  }

  /** The rest of a text yields a link exactly if the first occurrence of some name in it is whole. */
  lemma LinkedIff(remaining: string, names: seq<string>)
    requires Descending(names)
    ensures Choose(remaining, names).At? <==>
              exists k :: 0 <= k < |names| && IndexFrom(remaining, names[k], 0).Some?
                          && IsWhole(remaining, IndexFrom(remaining, names[k], 0).value, |names[k]|)
  {
    ChosenOccurs(remaining, names);
    if Choose(remaining, names).At? {
      var k :| 0 <= k < |names| && names[k] == Choose(remaining, names).name;
    }
    if k :| 0 <= k < |names| && IndexFrom(remaining, names[k], 0).Some?
            && IsWhole(remaining, IndexFrom(remaining, names[k], 0).value, |names[k]|)
    {
      ChosenIsFirst(remaining, names, k);
    }
  }

  /** A whole occurrence of a name can only be passed over if the name occurs before it inside a longer word. */
  lemma PassedOver(remaining: string, names: seq<string>, name: string, i: nat) returns (q: nat)
    requires Descending(names) && name in names
    requires OccursAt(remaining, name, i) && IsWhole(remaining, i, |name|)
    requires Choose(remaining, names).At? ==> i < Choose(remaining, names).index
    ensures q < i && OccursAt(remaining, name, q) && !IsWhole(remaining, q, |name|)
  {
    var k :| 0 <= k < |names| && names[k] == name;
    q := IndexFrom(remaining, name, 0).value;
    if IsWhole(remaining, q, |name|) {
      ChosenIsFirst(remaining, names, k);
    }
  }

  /** A link as the documentation promises it: a known name, whole in the text, and the longest there. */
  ghost predicate SoundLink(text: string, types: seq<DataType>, at: nat, part: Part) {
    && part.typeId.Some? && DataType(part.text, part.typeId.value) in types
    && OccursAt(text, part.text, at)
    && IsWhole(text, at, |part.text|)
    && (forall longer :: longer in SortedNames(types) && |longer| > |part.text| && OccursAt(text, longer, at) ==>
          !IsWhole(text, at, |longer|))
  }

  lemma SliceSplits(text: string, at: nat, i: nat, name: string)
    requires at <= |text|
    ensures OccursAt(text[at..], name, i) <==> OccursAt(text, name, at + i)
  {
    if at + i + |name| <= |text| {
      assert text[at..][i..i + |name|] == text[at + i..at + i + |name|];
    }
  }

  /** What is chosen in the rest of a text is sound in the whole text. */
  lemma ChosenIsSound(text: string, at: nat, types: seq<DataType>)
    requires forall name :: name in SortedNames(types) ==> StartsAsWord(name)
    requires at <= |text| && (0 < at < |text| ==> !IsWord(text[at]))
    requires Choose(text[at..], SortedNames(types)).At?
    ensures var c := Choose(text[at..], SortedNames(types));
            && SoundLink(text, types, at + c.index, Part(c.name, IdOf(types, c.name)))
            && var next := at + c.index + |c.name|; next < |text| ==> !IsWord(text[next])
  {
    hide Choose, IndexFrom, SortedNames, IdOf, Descending;
    var names, remaining := SortedNames(types), text[at..];
    var c := Choose(remaining, names);
    ChosenOccurs(remaining, names);
    SortedNamesAreTheLongNames(types, c.name);
    SliceSplits(text, at, c.index, c.name);
    assert at > 0 ==> c.index > 0 by {
      assert remaining[c.index] == c.name[0];
    }
    WholeInSlice(text, at, c.index, |c.name|);
    forall longer | longer in names && |longer| > |c.name| && OccursAt(text, longer, at + c.index)
      ensures !IsWhole(text, at + c.index, |longer|)
    {
      NoLongerInText(text, at, names, longer);
    }
  }

  lemma NoLongerInText(text: string, at: nat, names: seq<string>, longer: string)
    requires at <= |text| && Descending(names) && longer in names && Choose(text[at..], names).At?
    requires var c := Choose(text[at..], names);
             at + c.index + |longer| <= |text| && (at > 0 ==> c.index > 0) && |longer| > |c.name|
             && OccursAt(text, longer, at + c.index)
    ensures !IsWhole(text, at + Choose(text[at..], names).index, |longer|)
  {
    hide Choose, Descending, OccursAt;
    var i := Choose(text[at..], names).index;
    SliceSplits(text, at, i, longer);
    ChosenIsLongest(text[at..], names, longer);
    WholeInSlice(text, at, i, |longer|);
  }

  /** Behind its first character, a slice shows the same neighbours as the text. */
  lemma WholeInSlice(text: string, at: nat, i: nat, n: nat)
    requires at + i + n <= |text| && (at > 0 ==> i > 0)
    ensures IsWhole(text[at..], i, n) <==> IsWhole(text, at + i, n)
  {
  }

  lemma JoinedBefore(gap: seq<Part>, link: Part, rest: seq<Part>, k: nat)
    requires |gap| < k <= |gap| + |rest|
    ensures var parts, j := gap + ([link] + rest), k - |gap| - 1;
            && parts[k] == rest[j]
            && |Joined(parts[..k])| == |Joined(gap)| + |link.text| + |Joined(rest[..j])|
  {
    var parts, j := gap + ([link] + rest), k - |gap| - 1;
    assert parts[..k] == gap + ([link] + rest[..j]);
    JoinedAppend(gap, [link] + rest[..j]);
    JoinedAppend([link], rest[..j]);
  }

  /** The `k`th part, and where it begins in the text. */
  lemma {:induction false} LinksAreSound(text: string, at: nat, types: seq<DataType>, k: nat)
    requires forall name :: name in SortedNames(types) ==> |name| > 1 && StartsAsWord(name)
    requires at <= |text| && (0 < at < |text| ==> !IsWord(text[at]))
    requires k < |Parts(text[at..], types, SortedNames(types))|
    requires Parts(text[at..], types, SortedNames(types))[k].typeId.Some?
    ensures var parts := Parts(text[at..], types, SortedNames(types));
            SoundLink(text, types, at + |Joined(parts[..k])|, parts[k])
    decreases |text| - at
  {
    hide SortedNames, IdOf, SoundLink, Choose, Parts, IndexFrom, IsWhole;
    var names, remaining := SortedNames(types), text[at..];
    var parts := Parts(remaining, types, names);
    assert remaining != "" by {
      NoParts(types, names);
    }
    PartsUnfold(remaining, types, names);
    var c := Choose(remaining, names);
    if c.At? {
      var gap := if c.index > 0 then [Part(remaining[..c.index], None)] else [];
      var link := Part(c.name, IdOf(types, c.name));
      var next := at + c.index + |c.name|;
      var rest := Parts(text[next..], types, names);
      assert remaining[c.index + |c.name|..] == text[next..];
      assert parts == gap + ([link] + rest);
      ChosenIsSound(text, at, types);
      assert |Joined(gap)| == c.index;
      if k == |gap| {
        assert parts[..k] == gap;
      } else {
        JoinedBefore(gap, link, rest, k);
        LinksAreSound(text, next, types, k - |gap| - 1);
      }
    }
  }

  /**
    For names that begin with a word character, every link of a text is a known name at a whole-word
    position of the text itself, where no longer known name is whole; and the parts make up the text.
   */
  lemma LinkedText(text: string, types: seq<DataType>)
    requires forall t :: t in types && |t.name| > 1 ==> IsWord(t.name[0])
    ensures forall name :: name in SortedNames(types) ==> |name| > 1
    ensures var parts := Parts(text, types, SortedNames(types));
            && Joined(parts) == text
            && forall k :: 0 <= k < |parts| && parts[k].typeId.Some? ==>
                             SoundLink(text, types, |Joined(parts[..k])|, parts[k])
  {
    hide Parts, SortedNames, IdOf, SoundLink, Joined;
    LongEnough(types);
    PartsJoinToText(text, types, SortedNames(types));
    forall name | name in SortedNames(types)
      ensures StartsAsWord(name)
    {
      SortedNamesAreTheLongNames(types, name);
    }
    var parts := Parts(text, types, SortedNames(types));
    assert text[0..] == text;
    forall k | 0 <= k < |parts| && parts[k].typeId.Some?
      ensures SoundLink(text, types, |Joined(parts[..k])|, parts[k])
    {
      LinksAreSound(text, 0, types, k);
    }
  }

  /** In a slice, an occurrence that is whole in the text is whole. */
  lemma WholeShowsInSlice(text: string, at: nat, i: nat, n: nat)
    requires at + i + n <= |text| && IsWhole(text, at + i, n)
    ensures IsWhole(text[at..], i, n)
  {
  }

  /**
    Completeness, for any names at all: where a known name stands whole in the text and inside an unlinked
    part, the same name occurs earlier, from the start of that part on, inside a longer word.
   */
  lemma {:induction false} UnlinkedIsHidden(text: string, at: nat, types: seq<DataType>, k: nat, name: string, i: nat)
    returns (q: nat)
    requires forall n :: n in SortedNames(types) ==> |n| > 1
    requires at <= |text| && name in SortedNames(types)
    requires k < |Parts(text[at..], types, SortedNames(types))|
    requires var part := Parts(text[at..], types, SortedNames(types))[k];
             part.typeId.None? && OccursAt(part.text, name, i)
    requires var p := at + |Joined(Parts(text[at..], types, SortedNames(types))[..k])| + i;
             p + |name| <= |text| && IsWhole(text, p, |name|)
    ensures var start := at + |Joined(Parts(text[at..], types, SortedNames(types))[..k])|;
            start <= q < start + i && OccursAt(text, name, q) && !IsWhole(text, q, |name|)
    decreases |text| - at
  {
    hide SortedNames, IdOf, Choose, Parts, IndexFrom, IsWhole, Descending;
    var names, remaining := SortedNames(types), text[at..];
    var parts := Parts(remaining, types, names);
    assert remaining != "" by {
      NoParts(types, names);
    }
    SortedNamesAreTheLongNames(types, name);
    PartsUnfold(remaining, types, names);
    var c := Choose(remaining, names);
    if c.At? {
      ChosenOccurs(remaining, names);
      SortedNamesAreTheLongNames(types, c.name);
      var gap := if c.index > 0 then [Part(remaining[..c.index], None)] else [];
      var link := Part(c.name, IdOf(types, c.name));
      var next := at + c.index + |c.name|;
      var rest := Parts(text[next..], types, names);
      assert remaining[c.index + |c.name|..] == text[next..];
      assert parts == gap + ([link] + rest);
      assert |Joined(gap)| == c.index;
      if k < |gap| {
        assert parts[..k] == [];
        q := HiddenInFirst(text, at, names, remaining[..c.index], name, i);
      } else {
        assert k > |gap|;
        JoinedBefore(gap, link, rest, k);
        q := UnlinkedIsHidden(text, next, types, k - |gap| - 1, name, i);
      }
    } else {
      assert k == 0 && parts[..k] == [];
      q := HiddenInFirst(text, at, names, remaining, name, i);
    }
  }

  lemma HiddenInFirst(text: string, at: nat, names: seq<string>, plain: string, name: string, i: nat) returns (q: nat)
    requires at <= |text| && Descending(names) && name in names && name != ""
    requires plain <= text[at..] && OccursAt(plain, name, i) && IsWhole(text, at + i, |name|)
    requires Choose(text[at..], names).At? ==> |plain| <= Choose(text[at..], names).index
    ensures at <= q < at + i && OccursAt(text, name, q) && !IsWhole(text, q, |name|)
  {
    hide Choose, IndexFrom, Descending;
    assert OccursAt(text[at..], name, i) by {
      assert text[at..][i..i + |name|] == plain[i..i + |name|];
    }
    WholeShowsInSlice(text, at, i, |name|);
    q := PassedOver(text[at..], names, name, i);
    SliceSplits(text, at, q, name);
    if IsWhole(text, at + q, |name|) {
      WholeShowsInSlice(text, at, q, |name|);
    }
    q := at + q;
  }

  /** If every occurrence of every known name in a text is whole, no unlinked part contains a known name. */
  lemma NothingLeftUnlinked(text: string, types: seq<DataType>, k: nat, name: string, i: nat)
    requires forall n :: n in SortedNames(types) ==> |n| > 1
    requires forall n, p ::
               n in SortedNames(types) && 0 <= p <= |text| && OccursAt(text, n, p) ==> IsWhole(text, p, |n|)
    requires k < |Parts(text, types, SortedNames(types))| && Parts(text, types, SortedNames(types))[k].typeId.None?
    requires name in SortedNames(types)
    ensures !OccursAt(Parts(text, types, SortedNames(types))[k].text, name, i)
  {
    hide SortedNames, Parts, IsWhole, Choose, IndexFrom;
    var parts := Parts(text, types, SortedNames(types));
    assert text[0..] == text;
    if OccursAt(parts[k].text, name, i) {
      var p := |Joined(parts[..k])| + i;
      PartsJoinToText(text, types, SortedNames(types));
      PartInText(parts, k, name, i);
      var q := UnlinkedIsHidden(text, 0, types, k, name, i);
      assert false;
    }
  }

  lemma PartInText(parts: seq<Part>, k: nat, name: string, i: nat)
    requires k < |parts| && OccursAt(parts[k].text, name, i)
    ensures OccursAt(Joined(parts), name, |Joined(parts[..k])| + i)
  {
    var before, after := parts[..k], parts[k + 1..];
    assert parts == before + ([parts[k]] + after);
    JoinedAppend(before, [parts[k]] + after);
    JoinedAppend([parts[k]], after);
    assert [parts[k]][1..] == [];
    assert Joined([parts[k]]) == parts[k].text;
    var s, n := Joined(before), |Joined(before)| + i;
    assert Joined(parts) == s + (parts[k].text + Joined(after));
    assert Joined(parts)[n..n + |name|] == parts[k].text[i..i + |name|];
  }

  /** A link right behind another that ends in a word character, or at the start of a slice behind such a character. */
  predicate TouchesWord(text: string, at: nat, parts: seq<Part>, k: nat)
    requires at <= |text| && k < |parts|
  {
    if k == 0 then at > 0 && IsWord(text[at - 1])
    else var t := parts[k - 1].text; parts[k - 1].typeId.Some? && t != "" && IsWord(t[|t| - 1])
  }

  /** For any names: a link is whole in the text itself unless it directly follows a link ending in a word character. */
  lemma {:induction false} LinkIsWholeIff(text: string, at: nat, types: seq<DataType>, k: nat)
    requires forall name :: name in SortedNames(types) ==> |name| > 1
    requires at <= |text| && k < |Parts(text[at..], types, SortedNames(types))|
    requires Parts(text[at..], types, SortedNames(types))[k].typeId.Some?
    ensures var parts := Parts(text[at..], types, SortedNames(types));
            var p := at + |Joined(parts[..k])|;
            && OccursAt(text, parts[k].text, p)
            && (IsWhole(text, p, |parts[k].text|) <==> !TouchesWord(text, at, parts, k))
    decreases |text| - at
  {
    hide SortedNames, IdOf, Choose, Parts, IndexFrom, IsWhole, IsWord, OccursAt, TouchesWord;
    var names, remaining := SortedNames(types), text[at..];
    var parts := Parts(remaining, types, names);
    assert remaining != "" by {
      NoParts(types, names);
    }
    PartsUnfold(remaining, types, names);
    var c := Choose(remaining, names);
    if c.At? {
      ChosenOccurs(remaining, names);
      var gap := if c.index > 0 then [Part(remaining[..c.index], None)] else [];
      var link := Part(c.name, IdOf(types, c.name));
      var next := at + c.index + |c.name|;
      var rest := Parts(text[next..], types, names);
      assert remaining[c.index + |c.name|..] == text[next..];
      assert parts == gap + ([link] + rest);
      assert |Joined(gap)| == c.index;
      SliceSplits(text, at, c.index, c.name);
      if k == |gap| {
        assert parts[..k] == gap;
        TouchesFirst(text, at, gap, link, rest, c.index);
        SliceEdges(text, at, c.index, |c.name|);
      } else {
        JoinedBefore(gap, link, rest, k);
        LinkIsWholeIff(text, next, types, k - |gap| - 1);
        SortedNamesAreTheLongNames(types, c.name);
        TouchesLater(text, at, gap, link, next, rest, k);
      }
    }
  }

  lemma TouchesFirst(text: string, at: nat, gap: seq<Part>, link: Part, rest: seq<Part>, i: nat)
    requires at + i <= |text| && gap == if i > 0 then [Part(text[at..][..i], None)] else []
    ensures TouchesWord(text, at, gap + ([link] + rest), |gap|) <==> i == 0 && at > 0 && IsWord(text[at - 1])
  {
  }

  lemma TouchesLater(text: string, at: nat, gap: seq<Part>, link: Part, next: nat, rest: seq<Part>, k: nat)
    requires at < next <= |text| && link.typeId.Some? && |link.text| <= next && link.text != ""
    requires OccursAt(text, link.text, next - |link.text|)
    requires |gap| < k <= |gap| + |rest|
    ensures TouchesWord(text, at, gap + ([link] + rest), k) <==> TouchesWord(text, next, rest, k - |gap| - 1)
  {
    assert text[next - 1] == link.text[|link.text| - 1];
  }

  lemma SliceEdges(text: string, at: nat, i: nat, n: nat)
    requires at + i + n <= |text| && IsWhole(text[at..], i, n)
    ensures IsWhole(text, at + i, n) <==> !(i == 0 && at > 0 && IsWord(text[at - 1]))
  {
  }

  /** The hypothesis is needed: after a link, the slice hides the word character in front of a name like `$CD`. */
  lemma SymbolNamesCanBreak()
    ensures var types := [DataType("$CD", "1"), DataType("AB", "2")];
            && SortedNames(types) == ["$CD", "AB"]
            && Parts("AB$CD", types, ["$CD", "AB"]) == [Part("AB", Some("2")), Part("$CD", Some("1"))]
            && !IsWhole("AB$CD", 2, 3)
  {
    var types := [DataType("$CD", "1"), DataType("AB", "2")];
    var names := ["$CD", "AB"];
    assert types[1..] == [DataType("AB", "2")] && types[1..][1..] == [];
    assert names[1..] == ["AB"] && names[1..][1..] == [];
    assert LongNames(types[1..]) == ["AB"] && LongNames(types) == names;
    assert SortByLength(names[1..]) == ["AB"];
    ChoicesOfSymbols();
    assert "AB$CD"[2..] == "$CD" && "$CD"[3..] == "";
    hide Choose, IndexFrom, OccursAt, LongNames, SortByLength;
  }

  lemma ChoicesOfSymbols()
    ensures Choose("AB$CD", ["$CD", "AB"]) == At(0, "AB") && Choose("$CD", ["$CD", "AB"]) == At(0, "$CD")
  {
    var names := ["$CD", "AB"];
    assert names[..1] == ["$CD"] && names[..1][..0] == [];
    FoundAt("AB$CD", "AB", 0);
    assert "AB$CD"[0..3] == "AB$" && "AB$CD"[1..4] == "B$C";
    FoundAt("AB$CD", "$CD", 2);
    FoundAt("$CD", "$CD", 0);
    assert "$CD"[0..2] == "$C" && "$CD"[1..3] == "CD";
    hide OccursAt;
  }

  lemma FoundAt(s: string, name: string, i: nat)
    requires OccursAt(s, name, i) && forall j :: 0 <= j < i ==> !OccursAt(s, name, j)
    ensures IndexFrom(s, name, 0) == Some(i)
  {
  }

  /**
    Only the first occurrence of a name is tried, so one inside a longer word hides a whole one behind it:
    in this text the second `Foo` is whole, but nothing is linked.
   */
  lemma FirstOccurrenceHidesLater()
    ensures OccursAt("FooBar Foo", "Foo", 7) && IsWhole("FooBar Foo", 7, 3)
    ensures Choose("FooBar Foo", ["Foo"]) == Nowhere
  {
    assert OccursAt("FooBar Foo", "Foo", 0);
    assert ["Foo"][..0] == [];
  }

  // ---------------------------------------------------------------------------------------------
  // What single characters and types decide
  // ---------------------------------------------------------------------------------------------

  /** By their codes: the ASCII digits, capital letters, underscore and small letters. */
  predicate IsWordCode(n: int) { 48 <= n <= 57 || 65 <= n <= 90 || n == 95 || 97 <= n <= 122 }

  lemma SortedSingle(name: string, id: string)
    requires |name| > 1
    ensures SortedNames([DataType(name, id)]) == [name] && IdOf([DataType(name, id)], name) == Some(id)
  {
    var types := [DataType(name, id)];
    assert types[1..] == [];
    assert LongNames(types) == [name] && [name][1..] == [];
    assert SortByLength([name][1..]) == [];
  }

  lemma ChooseSingle(remaining: string, name: string)
    ensures Choose(remaining, [name]) == Consider(remaining, Nowhere, name)
  {
    assert [name][..0] == [];
  }

  /** One character behind a name decides: there is no link exactly for digits, letters and the underscore. */
  lemma CharacterBehindDecides(name: string, id: string, c: char)
    requires |name| > 1
    ensures var types := [DataType(name, id)];
            && SortedNames(types) == [name]
            && Parts(name + [c], types, [name]) ==
               if IsWordCode(c as int) then [Part(name + [c], None)] else [Part(name, Some(id)), Part([c], None)]
  {
    var types, text := [DataType(name, id)], name + [c];
    SortedSingle(name, id);
    ChooseSingle(text, name);
    ChooseSingle([c], name);
    assert OccursAt(text, name, 0);
    assert text[|name|..] == [c];
    hide SortedNames, IdOf, Choose, Parts;
    PartsUnfold(text, types, [name]);
    PartsUnfold([c], types, [name]);
  }

  /** The same for a character in front, if the name does not begin with it. */
  lemma CharacterBeforeDecides(name: string, id: string, c: char)
    requires |name| > 1 && c != name[0]
    ensures var types := [DataType(name, id)];
            && SortedNames(types) == [name]
            && Parts([c] + name, types, [name]) ==
               if IsWordCode(c as int) then [Part([c] + name, None)] else [Part([c], None), Part(name, Some(id))]
  {
    var types, text := [DataType(name, id)], [c] + name;
    SortedSingle(name, id);
    ChosenBehind(name, c);
    assert text[..1] == [c] && text[1 + |name|..] == "";
    hide SortedNames, IdOf, Choose, Parts, OccursAt, IndexFrom, IsWord;
    NoParts(types, [name]);
    PartsUnfold(text, types, [name]);
  }

  lemma ChosenBehind(name: string, c: char)
    requires name != "" && c != name[0]
    ensures Choose([c] + name, [name]) == if IsWordCode(c as int) then Nowhere else At(1, name)
  {
    var text := [c] + name;
    assert !OccursAt(text, name, 0) by {
      assert text[0] != name[0];
    }
    assert text[1..1 + |name|] == name;
    FoundAt(text, name, 1);
    ChooseSingle(text, name);
    hide Choose, IndexFrom, OccursAt;
  }

  /** Of several types with one name, it is the last whose id a link carries. */
  lemma {:induction false} LastTypeWins(types: seq<DataType>, name: string)
    ensures IdOf(types, name).Some? <==> exists t :: t in types && t.name == name
    ensures forall k ::
              0 <= k < |types| && types[k].name == name && (forall j :: k < j < |types| ==> types[j].name != name) ==>
              IdOf(types, name) == Some(types[k].id)
  {
    if types == [] {
    } else {
      var rest := types[1..];
      LastTypeWins(rest, name);
      assert types == [types[0]] + rest;
      forall k | 0 <= k < |types| && types[k].name == name && (forall j :: k < j < |types| ==> types[j].name != name)
        ensures IdOf(types, name) == Some(types[k].id)
      {
        if k > 0 {
          assert rest[k - 1] == types[k] && forall j :: k - 1 < j < |rest| ==> rest[j] == types[j + 1];
        } else {
          assert forall t :: t in rest ==> t.name != name;
        }
      }
    }
  }
}

/** The registry of unique items: who owns which, in the order of acquisition, saved after
    every change and read back at the start. */
module OneItems {
  import opened Text
  import opened Numbers
  import opened Dictionary

  const DROPPED := "버림"

  /** A value of the saved files. */
  datatype Json = Plain(text: string) | Number(n: int) | Other(printed: string)

  /** How the two files read a value. */
  function Owner(v: Json): string { if v.Plain? then v.text else "" }

  function IndexText(v: Json): string {
    match v case Plain(text) => text case Number(n) => IntText(n) case Other(printed) => printed
  }

  /** Records that say "dropped" behind the owner are not read back. */
  predicate Forgotten(owner: string) {
    var words := Words(RUST, owner);
    |words| > 1 && words[1] == DROPPED
  }

  function ReadBack(file: Dict<Json>): Dict<string> {
    if file == [] then []
    else if Forgotten(Owner(file[0].value)) then ReadBack(file[1..])
    else [Item(file[0].key, Owner(file[0].value))] + ReadBack(file[1..])
  }

  function NamesRead(file: Dict<Json>): (d: Dict<string>)
    ensures |d| == |file|
  {
    if file == [] then [] else [Item(file[0].key, IndexText(file[0].value))] + NamesRead(file[1..])
  }

  function Remembered(d: Dict<string>): Dict<string> {
    if d == [] then []
    else if Forgotten(d[0].value) then Remembered(d[1..])
    else [d[0]] + Remembered(d[1..])
  }

  function Written(d: Dict<string>): Dict<Json> {
    if d == [] then [] else [Item(d[0].key, Plain(d[0].value))] + Written(d[1..])
  }

  /** `split_whitespace().next().unwrap_or(s)`. */
  function Holder(owner: string): string {
    var words := Words(RUST, owner);
    if words == [] then owner else words[0]
  }

  /** The first name that stands for the index. */
  function NameOf(names: Dict<string>, index: string): string {
    if names == [] then ""
    else if names[0].value == index then names[0].key
    else NameOf(names[1..], index)
  }

  datatype Row = Row(name: string, index: string, owner: string)

  function Rows(d: Dict<string>, names: Dict<string>): (rows: seq<Row>)
    ensures |rows| == |d|
  {
    if d == [] then []
    else [Row(NameOf(names, d[0].key), d[0].key, d[0].value)] + Rows(d[1..], names)
  }

  /** The first name in order that stands for the index, or none does and it is empty. */
  lemma {:induction false} NameOfIs(names: Dict<string>, index: string) returns (i: nat)
    ensures i <= |names| && forall j :: 0 <= j < i ==> names[j].value != index
    ensures if i < |names| then names[i].value == index && NameOf(names, index) == names[i].key
            else NameOf(names, index) == ""
    decreases |names|
  {
    i := 0;
    if names != [] && names[0].value != index {
      i := NameOfIs(names[1..], index);
      i := i + 1;
    }
  }

  /** A row shows the record at its place: its name, its index and its owner. */
  lemma {:induction false} RowsShow(d: Dict<string>, names: Dict<string>, i: nat)
    requires i < |d|
    ensures var row := Rows(d, names)[i];
      row.index == d[i].key && row.owner == d[i].value && row.name == NameOf(names, d[i].key)
    decreases |d|
  {
    if i > 0 { RowsShow(d[1..], names, i - 1); }
  }

  /** What is read back: the records whose owner text does not have the mark for its second
      word, with that text; a value that is no text counts as an empty one. */
  lemma {:induction false} ReadBackIs(file: Dict<Json>, key: string)
    requires Unique(file)
    ensures Get(ReadBack(file), key) ==
      match Get(file, key)
      case None => None
      case Some(v) =>
        var owner := if v.Plain? then v.text else "";
        if |Words(RUST, owner)| > 1 && Words(RUST, owner)[1] == "버림" then None else Some(owner)
    decreases |file|
  {
    hide RUST;
    WordsOfBlank(RUST, "");
    hide Words;
    if file != [] {
      ReadBackIs(file[1..], key);
      ReadHas(file[1..], file[0].key);
      var back := ReadBack(file[1..]);
      assert ([Item(file[0].key, Owner(file[0].value))] + back)[1..] == back;
      HasIsGet(file[1..], file[0].key);
      HasIsGet(back, file[0].key);
    }
  }

  lemma {:induction false} ReadHas(file: Dict<Json>, key: string)
    ensures Has(ReadBack(file), key) ==> Has(file, key)
    decreases |file|
  {
    hide Forgotten;
    if file != [] {
      ReadHas(file[1..], key);
      var back := ReadBack(file[1..]);
      assert ([Item(file[0].key, Owner(file[0].value))] + back)[1..] == back;
    }
  }

  // ---- a hash map with an order vector is an ordered dictionary ---------------------

  /** `attr_order.iter().filter_map(|k| attr.get(k) ...)`. */
  function Entries(order: seq<string>, attr: map<string, string>): Dict<string> {
    if order == [] then []
    else if order[0] in attr then [Item(order[0], attr[order[0]])] + Entries(order[1..], attr)
    else Entries(order[1..], attr)
  }

  predicate NoRepeats(order: seq<string>) {
    order == [] || (order[0] !in order[1..] && NoRepeats(order[1..]))
  }

  /** The vector lists each key of the map exactly once. */
  ghost predicate Agree(order: seq<string>, attr: map<string, string>) {
    NoRepeats(order) && forall k :: k in attr <==> k in order
  }

  function Retain(order: seq<string>, key: string): seq<string> {
    if order == [] then []
    else if order[0] == key then Retain(order[1..], key)
    else [order[0]] + Retain(order[1..], key)
  }

  /** Nothing is lost on the way from the two structures to one list. */
  lemma {:induction false} EntriesLoseNothing(order: seq<string>, attr: map<string, string>, key: string)
    requires NoRepeats(order) && forall k :: k in order ==> k in attr
    ensures Keys(Entries(order, attr)) == order && Unique(Entries(order, attr))
    ensures Has(Entries(order, attr), key) <==> key in order
    ensures key in order ==> Get(Entries(order, attr), key) == Some(attr[key])
    decreases |order|
  {
    if order != [] {
      EntriesLoseNothing(order[1..], attr, key);
      EntriesLoseNothing(order[1..], attr, order[0]);
      assert order == [order[0]] + order[1..];
    }
  }

  lemma {:induction false} EntriesOfOther(order: seq<string>, attr: map<string, string>, key: string, value: string)
    requires key !in order
    ensures Entries(order, attr[key := value]) == Entries(order, attr)
    ensures Entries(order, attr - {key}) == Entries(order, attr)
    decreases |order|
  {
    if order != [] { EntriesOfOther(order[1..], attr, key, value); }
  }

  /** An insert into the map, with a push for a new key, sets the key in the dictionary. */
  lemma {:induction false} EntriesPut(order: seq<string>, attr: map<string, string>, key: string, value: string)
    requires NoRepeats(order) && (key in order ==> key in attr)
    ensures Entries(if key in order then order else order + [key], attr[key := value])
      == Put(Entries(order, attr), key, value)
    decreases |order|
  {
    if order != [] {
      var rest := order[1..];
      if order[0] == key {
        EntriesOfOther(rest, attr, key, value);
      } else {
        EntriesPut(rest, attr, key, value);
        assert (order + [key])[1..] == rest + [key];
      }
    }
  }

  lemma {:induction false} EntriesDelete(order: seq<string>, attr: map<string, string>, key: string)
    ensures Entries(Retain(order, key), attr - {key}) == Delete(Entries(order, attr), key)
    decreases |order|
  {
    if order != [] { EntriesDelete(order[1..], attr, key); }
  }

  lemma {:induction false} RetainWorks(order: seq<string>, key: string)
    ensures forall k :: k in Retain(order, key) <==> k in order && k != key
    ensures NoRepeats(order) ==> NoRepeats(Retain(order, key))
    decreases |order|
  {
    if order != [] { RetainWorks(order[1..], key); }
  }

  lemma {:induction false} NoRepeatsPush(order: seq<string>, key: string)
    requires NoRepeats(order) && key !in order
    ensures NoRepeats(order + [key])
    decreases |order|
  {
    if order != [] {
      NoRepeatsPush(order[1..], key);
      assert (order + [key])[1..] == order[1..] + [key];
    }
  }

  /** The next key of a parsed file is a new one. */
  lemma NewKey(done: Dict<Json>, rest: Dict<Json>, order: seq<string>, attr: map<string, string>, value: string)
    requires rest != [] && Unique(done + rest) && Agree(order, attr)
    requires forall k :: k in attr ==> Has(done, k)
    ensures var key := rest[0].key;
      && Agree(order + [key], attr[key := value])
      && Entries(order + [key], attr[key := value]) == Entries(order, attr) + [Item(key, value)]
    ensures (done + [rest[0]]) + rest[1..] == done + rest
    ensures forall k :: Has(done + [rest[0]], k) <==> Has(done, k) || k == rest[0].key
  {
    var x := rest[0];
    Assoc(done, [x], rest[1..]);
    assert rest == [x] + rest[1..];
    UniqueParts(done, x, rest[1..]);
    forall k ensures Has(done + [x], k) <==> Has(done, k) || k == x.key { HasJoin(done, [x], k); }
    EntriesPut(order, attr, x.key, value);
    NoRepeatsPush(order, x.key);
    EntriesLoseNothing(order, attr, x.key);
    PutNew(Entries(order, attr), x.key, value);
  }

  // ---- the registry ---------------------------------------------------------------------

  class OneitemState {
    var attr: map<string, string>
    var attrOrder: seq<string>
    var index: map<string, string>
    var indexOrder: seq<string>
    /** What was last written. */
    var file: Dict<Json>

    ghost predicate Valid()
      reads this
    {
      Agree(attrOrder, attr) && Agree(indexOrder, index)
    }

    /** The owners, in order. */
    function Owners(): Dict<string>
      reads this
    {
      Entries(attrOrder, attr)
    }

    function Names(): Dict<string>
      reads this
    {
      Entries(indexOrder, index)
    }

    constructor ()
      ensures Valid() && Owners() == [] && Names() == []
    {
      attr, attrOrder, index, indexOrder, file := map[], [], map[], [], [];
    }

    /** `load` of the two files, as parsed. */
    method Load(owners: Dict<Json>, names: Dict<Json>)
      requires Unique(owners) && Unique(names)
      modifies this
      ensures Valid() && file == old(file)
      ensures Owners() == ReadBack(owners) && Names() == NamesRead(names)
    {
      attr, attrOrder := map[], [];
      var rest := owners;
      ghost var done: Dict<Json> := [];
      assert done + rest == rest;
      while rest != []
        invariant done + rest == owners && Agree(attrOrder, attr)
        invariant forall k :: k in attr ==> Has(done, k)
        invariant Owners() + ReadBack(rest) == ReadBack(owners)
        invariant file == old(file)
      {
        hide Forgotten;
        hide Has;
        hide Unique;
        hide NoRepeats;
        hide Entries;
        var key, owner := rest[0].key, Owner(rest[0].value);
        NewKey(done, rest, attrOrder, attr, owner);
        if !Forgotten(owner) {
          Assoc(Owners(), [Item(key, owner)], ReadBack(rest[1..]));
          attr := attr[key := owner];
          attrOrder := attrOrder + [key];
        }
        done := done + [rest[0]];
        rest := rest[1..];
      }
      LoadNames(names);
    }

    /** The second half of `load`. */
    method LoadNames(names: Dict<Json>)
      requires Unique(names) && Agree(attrOrder, attr)
      modifies this`index, this`indexOrder
      ensures Valid() && Names() == NamesRead(names)
    {
      index, indexOrder := map[], [];
      var rest := names;
      ghost var done: Dict<Json> := [];
      assert done + rest == rest;
      while rest != []
        invariant done + rest == names && Agree(indexOrder, index)
        invariant forall k :: k in index ==> Has(done, k)
        invariant Names() + NamesRead(rest) == NamesRead(names)
      {
        hide IndexText;
        hide Has;
        hide Unique;
        hide NoRepeats;
        hide Entries;
        var name, idx := rest[0].key, IndexText(rest[0].value);
        NewKey(done, rest, indexOrder, index, idx);
        Assoc(Names(), [Item(name, idx)], NamesRead(rest[1..]));
        index := index[name := idx];
        indexOrder := indexOrder + [name];
        done := done + [rest[0]];
        rest := rest[1..];
      }
    }

    /** `save`: the owners are written out in order. */
    method Save()
      modifies this`file
      ensures file == Written(Owners())
    {
      var values: Dict<Json> := [];
      var rest := attrOrder;
      while rest != []
        invariant values + Written(Entries(rest, attr)) == Written(Owners())
      {
        if rest[0] in attr {
          Assoc(values, [Item(rest[0], Plain(attr[rest[0]]))], Written(Entries(rest[1..], attr)));
          assert Entries(rest, attr)[1..] == Entries(rest[1..], attr);
          values := values + [Item(rest[0], Plain(attr[rest[0]]))];
        }
        rest := rest[1..];
      }
      file := values;
    }

    /** The program stops after a save and starts again. */
    method Restart(names: Dict<Json>)
      requires Valid() && file == Written(Owners()) && Unique(names)
      modifies this
      ensures Valid() && Owners() == Remembered(old(Owners()))
    {
      hide Remembered;
      LoadAfterSave(Owners());
      EntriesLoseNothing(attrOrder, attr, "");
      UniqueKeys(file, Owners());
      Load(file, names);
    }

    /** The step shared by the four ways of recording an owner. */
    method Record(key: string, owner: string)
      requires Valid()
      modifies this`attr, this`attrOrder, this`file
      ensures Valid() && Owners() == Put(old(Owners()), key, owner)
      ensures file == Written(Owners())
    {
      EntriesPut(attrOrder, attr, key, owner);
      if key !in attr {
        NoRepeatsPush(attrOrder, key);
        attrOrder := attrOrder + [key];
      }
      attr := attr[key := owner];
      Save();
    }

    method Have(key: string, name: string)
      requires Valid()
      modifies this`attr, this`attrOrder, this`file
      ensures Valid() && Owners() == Put(old(Owners()), key, name)
      ensures file == Written(Owners())
    {
      Record(key, name);
    }

    method DoDrop(key: string, name: string)
      requires Valid()
      modifies this`attr, this`attrOrder, this`file
      ensures Valid() && Owners() == Put(old(Owners()), key, name + " " + DROPPED)
      ensures file == Written(Owners())
    {
      Record(key, name + " " + DROPPED);
    }

    method Drop2(key: string, name: string)
      requires Valid()
      modifies this`attr, this`attrOrder, this`file
      ensures Valid() && Owners() == Put(old(Owners()), key, name + " 떨굼")
      ensures file == Written(Owners())
    {
      Record(key, name + " 떨굼");
    }

    method Keep(key: string, name: string)
      requires Valid()
      modifies this`attr, this`attrOrder, this`file
      ensures Valid() && Owners() == Put(old(Owners()), key, name + " 보관")
      ensures file == Written(Owners())
    {
      Record(key, name + " 보관");
    }

    method Destroy(key: string)
      requires Valid()
      modifies this`attr, this`attrOrder, this`file
      ensures Valid() && Owners() == Delete(old(Owners()), key)
      ensures file == Written(Owners())
    {
      EntriesDelete(attrOrder, attr, key);
      RetainWorks(attrOrder, key);
      attr := attr - {key};
      attrOrder := Retain(attrOrder, key);
      Save();
    }

    method Clear()
      requires Valid()
      modifies this`attr, this`attrOrder, this`file
      ensures Valid() && Owners() == [] && file == []
    {
      attr, attrOrder := map[], [];
      Save();
    }

    method Fetch(key: string) returns (owner: string)
      requires Valid()
      ensures Get(Owners(), key) == if key in attr then Some(owner) else None
      ensures Get(Owners(), key) == None ==> owner == ""
    {
      EntriesLoseNothing(attrOrder, attr, key);
      HasIsGet(Owners(), key);
      return if key in attr then attr[key] else "";
    }

    /** `get_name`: a search along the order vector. */
    method GetName(key: string) returns (name: string)
      requires Valid()
      ensures name == NameOf(Names(), key)
    {
      var rest := indexOrder;
      while rest != []
        invariant forall k :: k in rest ==> k in index
        invariant NameOf(Entries(rest, index), key) == NameOf(Names(), key)
      {
        assert Entries(rest, index)[1..] == Entries(rest[1..], index);
        if rest[0] in index && index[rest[0]] == key {
          return rest[0];
        }
        rest := rest[1..];
      }
      return "";
    }

    method CheckIndex(key: string) returns (owner: Option<string>)
      requires Valid()
      ensures owner == match Get(Owners(), key) case Some(o) => Some(Holder(o)) case None => None
    {
      EntriesLoseNothing(attrOrder, attr, key);
      HasIsGet(Owners(), key);
      return if key in attr then Some(Holder(attr[key])) else None;
    }

    method CheckName(name: string) returns (owner: Option<string>)
      requires Valid()
      ensures owner == match Get(Names(), name)
        case Some(key) => (match Get(Owners(), key) case Some(o) => Some(Holder(o)) case None => None)
        case None => None
    {
      EntriesLoseNothing(indexOrder, index, name);
      HasIsGet(Names(), name);
      if name !in index {
        return None;
      }
      owner := CheckIndex(index[name]);
    }

    /** `list`, one row a line. */
    method List() returns (rows: seq<Row>)
      requires Valid()
      ensures rows == Rows(Owners(), Names())
    {
      rows := [];
      var rest := attrOrder;
      while rest != []
        invariant rows + Rows(Entries(rest, attr), Names()) == Rows(Owners(), Names())
      {
        if rest[0] in attr {
          var name := GetName(rest[0]);
          Assoc(rows, [Row(name, rest[0], attr[rest[0]])], Rows(Entries(rest[1..], attr), Names()));
          assert Entries(rest, attr)[1..] == Entries(rest[1..], attr);
          rows := rows + [Row(name, rest[0], attr[rest[0]])];
        }
        rest := rest[1..];
      }
    }
  }

  // ---- saving and loading -------------------------------------------------------------

  /** Reading back what was written returns, in order, exactly the records not dropped. */
  lemma {:induction false} LoadAfterSave(d: Dict<string>)
    ensures ReadBack(Written(d)) == Remembered(d)
    ensures Keys(Written(d)) == Keys(d)
    decreases |d|
  {
    if d != [] {
      hide Forgotten;
      LoadAfterSave(d[1..]);
      assert Written(d)[1..] == Written(d[1..]);
    }
  }

  lemma {:induction false} UniqueKeys(a: Dict<Json>, b: Dict<string>)
    requires Keys(a) == Keys(b) && Unique(b)
    ensures Unique(a)
    decreases |a|
  {
    if a != [] {
      assert Keys(a)[1..] == Keys(a[1..]) && Keys(b)[1..] == Keys(b[1..]);
      UniqueKeys(a[1..], b[1..]);
      HasIsGet(a[1..], a[0].key);
      HasIsGet(b[1..], b[0].key);
    }
  }

  function AsReloaded(owner: Option<string>): Option<string> {
    if owner.Some? && Forgotten(owner.value) then None else owner
  }

  /** Reloading twice changes nothing more. */
  lemma {:induction false} RememberedOnce(d: Dict<string>, key: string)
    ensures Remembered(Remembered(d)) == Remembered(d)
    ensures Unique(d) ==> Unique(Remembered(d))
    ensures Unique(d) ==> Get(Remembered(d), key) == AsReloaded(Get(d, key))
    ensures Has(Remembered(d), key) ==> Has(d, key)
    decreases |d|
  {
    if d != [] {
      hide Forgotten;
      RememberedOnce(d[1..], key);
      RememberedOnce(d[1..], d[0].key);
      HasIsGet(d[1..], key);
    }
  }

  lemma WordsOfMark(name: string, mark: string)
    requires IsWord(RUST, mark)
    ensures Words(RUST, name + " " + mark) == Words(RUST, name) + [mark]
  {
    assert ' ' in RUST && " "[0] == ' ';
    Assoc(name, " ", mark);
    assert (" " + mark)[0] == ' ';
    WordsCut(RUST, name, " " + mark);
    WordsSkipBlank(RUST, " ", mark);
    WordsLead(RUST, mark, []);
    assert mark + [] == mark;
  }

  /** A dropped item is forgotten at the next start exactly when its owner's name is one
      word, or its second word happens to be the mark itself. */
  lemma DroppedIsForgottenIff(name: string)
    ensures var words := Words(RUST, name);
      Forgotten(name + " " + DROPPED) <==> |words| == 1 || (|words| > 1 && words[1] == DROPPED)
  {
    MarksAreWords();
    WordsOfMark(name, DROPPED);
  }

  lemma MarksAreWords()
    ensures IsWord(RUST, DROPPED) && IsWord(RUST, "보관") && IsWord(RUST, "떨굼")
  {
  }

  /** Items that are kept or lie on the ground survive, unless the owner's second word is
      the mark of dropped items. */
  lemma OthersAreForgottenIff(name: string, mark: string)
    requires mark == "보관" || mark == "떨굼"
    ensures var words := Words(RUST, name);
      Forgotten(name + " " + mark) <==> |words| > 1 && words[1] == DROPPED
  {
    MarksAreWords();
    WordsOfMark(name, mark);
  }

  /** Whatever mark is put behind it, the owner that is reported is the first word. */
  lemma HolderIsFirstWord(name: string, mark: string)
    requires IsWord(RUST, mark) && Words(RUST, name) != []
    ensures Holder(name + " " + mark) == Holder(name) == Words(RUST, name)[0]
  {
    WordsOfMark(name, mark);
  }
}

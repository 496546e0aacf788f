/**
 * Header collections. Names are held in lower case, as the http crate's `HeaderName`
 * normalises every name it accepts, so comparing names is comparing strings.
 *
 * Two shapes occur in the source:
 *  - a HeaderList is a header collection seen through its iterator: hyper's `HeaderMap`
 *    and the incoming actix request's headers, repeated names kept; hyper's request
 *    builder `.header(..)` appends to it. Only the order of the values under one name is
 *    meaningful: the http crate's map yields all values of a name together and `remove`
 *    moves entries around, so the order across names is not the order on the wire;
 *  - a HeaderMap is actix's response header map: a name maps to its list of values;
 *    `append_header` adds a value to the name's list and `insert_header` replaces the list.
 */
module Headers {

  import opened Wrappers

  datatype Header = Header(name: string, value: string)

  type HeaderList = seq<Header>

  type HeaderMap = map<string, seq<string>>

  /** The `Host` header's name. */
  const HostHeader := "host"

  /** The values carried under `n`, in order. */
  function ValuesOf(hs: HeaderList, n: string): seq<string>
  {
    if hs == [] then []
    else ValuesOf(hs[..|hs| - 1], n) + (if hs[|hs| - 1].name == n then [hs[|hs| - 1].value] else [])
  }

  /** `HeaderMap::get`: the first value under `n`. */
  function FirstValue(hs: HeaderList, n: string): Option<string>
  {
    var vs := ValuesOf(hs, n);
    if vs == [] then None else Some(vs[0])
  }

  /** The list with every header whose name is in `names` dropped, the others kept in order. */
  function Without(hs: HeaderList, names: set<string>): HeaderList
  {
    if hs == [] then []
    else Without(hs[..|hs| - 1], names) + (if hs[|hs| - 1].name in names then [] else [hs[|hs| - 1]])
  }

  /** actix `append_header`: the value joins the end of the name's list. */
  function AppendHeader(m: HeaderMap, n: string, v: string): HeaderMap {
    m[n := (if n in m then m[n] else []) + [v]]
  }

  /** actix `insert_header`: the value replaces whatever the name had. */
  function InsertHeader(m: HeaderMap, n: string, v: string): HeaderMap {
    m[n := [v]]
  }

  /** The actix map built by appending every header of `hs` in turn to an empty map. */
  function Grouped(hs: HeaderList): HeaderMap {
    if hs == [] then map[]
    else AppendHeader(Grouped(hs[..|hs| - 1]), hs[|hs| - 1].name, hs[|hs| - 1].value)
  }

  /** The actix map built by inserting every header of `hs` in turn into an empty map. */
  function Keyed(hs: HeaderList): HeaderMap {
    if hs == [] then map[]
    else InsertHeader(Keyed(hs[..|hs| - 1]), hs[|hs| - 1].name, hs[|hs| - 1].value)
  }

  lemma {:induction false} ValuesOfConcat(a: HeaderList, b: HeaderList, n: string)
    ensures ValuesOf(a + b, n) == ValuesOf(a, n) + ValuesOf(b, n)
    decreases |b|
  {
    if b == [] {
      assert a + b == a;
    } else {
      var b' := b[..|b| - 1];
      assert (a + b)[..|a + b| - 1] == a + b';
      ValuesOfConcat(a, b', n);
    }
  }

  /** A header survives the filter exactly when it was there and its name is not dropped. */
  lemma {:induction false} WithoutMember(hs: HeaderList, names: set<string>, h: Header)
    ensures h in Without(hs, names) <==> h in hs && h.name !in names
  {
    if hs != [] {
      WithoutMember(hs[..|hs| - 1], names, h);
      assert hs == hs[..|hs| - 1] + [hs[|hs| - 1]];
    }
  }

  /**
   * Nothing but the dropped names changes: every other name keeps all its values,
   * in their order, and a dropped name keeps none.
   */
  lemma {:induction false} WithoutValues(hs: HeaderList, names: set<string>, n: string)
    ensures ValuesOf(Without(hs, names), n) == if n in names then [] else ValuesOf(hs, n)
  {
    if hs != [] {
      var init, last := hs[..|hs| - 1], hs[|hs| - 1];
      WithoutValues(init, names, n);
      var tail := if last.name in names then [] else [last];
      ValuesOfConcat(Without(init, names), tail, n);
    }
  }

  lemma WithoutAllValues(hs: HeaderList, names: set<string>)
    ensures forall n :: ValuesOf(Without(hs, names), n) == if n in names then [] else ValuesOf(hs, n)
  {
    forall n ensures ValuesOf(Without(hs, names), n) == if n in names then [] else ValuesOf(hs, n) {
      WithoutValues(hs, names, n);
    }
  }

  /** Appending keeps every value: the map has a name exactly when the list does, with all its values. */
  lemma {:induction false} GroupedValues(hs: HeaderList, n: string)
    ensures n in Grouped(hs) <==> ValuesOf(hs, n) != []
    ensures n in Grouped(hs) ==> Grouped(hs)[n] == ValuesOf(hs, n)
  {
    if hs != [] {
      GroupedValues(hs[..|hs| - 1], n);
    }
  }

  /** Inserting keeps only the last value of each name. */
  lemma {:induction false} KeyedValues(hs: HeaderList, n: string)
    ensures n in Keyed(hs) <==> ValuesOf(hs, n) != []
    ensures n in Keyed(hs) ==> Keyed(hs)[n] == [ValuesOf(hs, n)[|ValuesOf(hs, n)| - 1]]
  {
    if hs != [] {
      KeyedValues(hs[..|hs| - 1], n);
    }
  }
}

/** The chain of data type conversions of an ajax response; the loop inserts into the list that it walks. */
module AjaxConvert {
  import opened Helpers

  /** A converter is `true` for types that are the same, or a function, here a number for `run`. */
  datatype Converter = Equivalent | Function(id: nat)

  /** The key "from to" of a converter. */
  datatype Key = Key(from: string, to: string)

  type Data = int

  datatype Result = Success(data: Data) | NoConversion(prev: string, current: string) | Threw

  const ANY := "*"

  /** The registered converters in the order in which `for in` lists their keys, and what the functions
      compute; None when a function throws. */
  datatype Settings = Settings(converters: map<Key, Converter>, keys: seq<Key>, run: (nat, Data) -> Option<Data>) {
    ghost predicate Valid() {
      && (forall k | k in keys :: k in converters) && (forall k | k in converters :: k in keys)
      && forall k | k in converters :: k.from != ""
    }

    /** `converters[ prev + " " + current ] || converters[ "* " + current ]` */
    function Direct(prev: string, current: string): Option<Converter> {
      if Key(prev, current) in converters then Some(converters[Key(prev, current)])
      else if Key(ANY, current) in converters then Some(converters[Key(ANY, current)])
      else None
    }

    function Apply(c: Converter, data: Data): Option<Data> {
      match c
      case Equivalent => Some(data)
      case Function(id) => run(id, data)
    }

    /** The first key that leads to `current` from a type that `prev` can be converted to. */
    function Pair(prev: string, current: string, i: nat): (r: Option<Key>)
      requires i <= |keys|
      ensures r.Some? ==> r.value in keys && r.value.to == current && Direct(prev, r.value.from).Some?
      ensures r.None? ==> forall k | i <= k < |keys| :: keys[k].to == current ==> Direct(prev, keys[k].from).None?
      decreases |keys| - i
    {
      if i == |keys| then None
      else if keys[i].to == current && Direct(prev, keys[i].from).Some? then Some(keys[i])
      else Pair(prev, current, i + 1)
    }

    /** The conversions that take `prev` to `current`, as the code chooses them. */
    function Chosen(prev: string, current: string): Option<seq<Converter>>
      requires forall k | k in keys :: k in converters
    {
      if prev == ANY || prev == current then Some([])
      else if Direct(prev, current).Some? then Some([Direct(prev, current).value])
      else
        var pair := Pair(prev, current, 0);
        if pair.None? then None else Some([Direct(prev, pair.value.from).value, converters[pair.value]])
    }

    function ApplyAll(cs: seq<Converter>, data: Data): Option<Data> {
      if cs == [] then Some(data)
      else
        var next := Apply(cs[0], data);
        if next.None? then None else ApplyAll(cs[1..], next.value)
    }

    /** What the chain computes, without the list surgery: one choice for each requested type from index `i` on. */
    function Convert(types: seq<string>, i: nat, prev: string, data: Data): Result
      requires forall k | k in keys :: k in converters
      decreases |types| - i
    {
      if i >= |types| || types[i] == "" then Success(data)
      else if types[i] == ANY then Convert(types, i + 1, prev, data)
      else
        var chosen := Chosen(prev, types[i]);
        if chosen.None? then NoConversion(prev, types[i])
        else
          var next := ApplyAll(chosen.value, data);
          if next.None? then Threw else Convert(types, i + 1, types[i], next.value)
    }

    // What success and failure mean

    /** Some converter takes `prev` to `current` directly, or two do. */
    ghost predicate Reachable(prev: string, current: string) {
      || prev == ANY || prev == current || Direct(prev, current).Some?
      || exists mid :: Key(mid, current) in converters && Direct(prev, mid).Some?
    }

    /** Every step between consecutive requested types can be made. */
    ghost predicate AllReachable(types: seq<string>, i: nat, prev: string)
      decreases |types| - i
    {
      if i >= |types| || types[i] == "" then true
      else if types[i] == ANY then AllReachable(types, i + 1, prev)
      else Reachable(prev, types[i]) && AllReachable(types, i + 1, types[i])
    }

    lemma ChosenExists(prev: string, current: string)
      requires Valid()
      ensures Chosen(prev, current).Some? <==> Reachable(prev, current)
    {
      if mid :| Key(mid, current) in converters && Direct(prev, mid).Some? {
        var k :| 0 <= k < |keys| && keys[k] == Key(mid, current);
      }
      var pair := Pair(prev, current, 0);
      if pair.Some? {
        assert Key(pair.value.from, current) in converters;
      }
    }

    /** The conversion fails for want of a converter only at a step that neither one converter nor two can make. */
    lemma {:induction false} FailureMeaning(types: seq<string>, i: nat, prev: string, data: Data)
      requires Valid()
      ensures var r := Convert(types, i, prev, data);
              && (r.NoConversion? ==> !Reachable(r.prev, r.current) && !AllReachable(types, i, prev))
              && (r.Success? ==> AllReachable(types, i, prev))
      decreases |types| - i
    {
      if i >= |types| || types[i] == "" {
      } else if types[i] == ANY {
        FailureMeaning(types, i + 1, prev, data);
      } else {
        ChosenExists(prev, types[i]);
        if Chosen(prev, types[i]).Some? {
          var next := ApplyAll(Chosen(prev, types[i]).value, data);
          if next.Some? {
            FailureMeaning(types, i + 1, types[i], next.value);
          }
        }
      }
    }

    /** A converter is registered for these types, or for any type to the second one. */
    predicate Takes(prev: string, current: string) {
      Key(prev, current) in converters || Key(ANY, current) in converters
    }

    /** One conversion on the way: the converter for exactly these types if there is one, else the one for any type. */
    ghost predicate Hop(prev: string, current: string, c: Converter) {
      if Key(prev, current) in converters then converters[Key(prev, current)] == c
      else Key(ANY, current) in converters && converters[Key(ANY, current)] == c
    }

    /** The `j`-th key is the first one that leads to `current` from a type that `prev` can be converted to. */
    predicate FirstWay(prev: string, current: string, j: nat) {
      && j < |keys| && keys[j].to == current && Takes(prev, keys[j].from)
      && forall h | 0 <= h < j :: keys[h].to == current ==> !Takes(prev, keys[h].from)
    }

    /** `path` visits the requested types in order, and another type between two of them only if no converter leads from
        the one to the other; then it is the type of the first registered key that can be used. */
    ghost predicate Travels(types: seq<string>, i: nat, prev: string, path: seq<Converter>)
      requires forall k | k in keys :: k in converters
      decreases |types| - i
    {
      if i >= |types| || types[i] == "" then path == []
      else if types[i] == ANY then Travels(types, i + 1, prev, path)
      else if prev == ANY || prev == types[i] then Travels(types, i + 1, types[i], path)
      else if Takes(prev, types[i]) then
        |path| >= 1 && Hop(prev, types[i], path[0]) && Travels(types, i + 1, types[i], path[1..])
      else
        && |path| >= 2
        && (exists j | 0 <= j < |keys| ::
              FirstWay(prev, types[i], j) && Hop(prev, keys[j].from, path[0]) && path[1] == converters[keys[j]])
        && Travels(types, i + 1, types[i], path[2..])
    }

    lemma {:induction false} PairIsFirst(prev: string, current: string, i: nat) returns (j: nat)
      requires i <= |keys| && Pair(prev, current, i).Some?
      requires forall h | 0 <= h < i :: keys[h].to == current ==> !Takes(prev, keys[h].from)
      ensures FirstWay(prev, current, j) && keys[j] == Pair(prev, current, i).value
      decreases |keys| - i
    {
      if keys[i].to == current && Takes(prev, keys[i].from) {
        j := i;
      } else {
        j := PairIsFirst(prev, current, i + 1);
      }
    }

    lemma {:induction false} ApplyAllConcat(a: seq<Converter>, b: seq<Converter>, data: Data)
      requires ApplyAll(a, data).Some?
      ensures ApplyAll(a + b, data) == ApplyAll(b, ApplyAll(a, data).value)
    {
      if a == [] {
        assert a + b == b;
      } else {
        assert (a + b)[0] == a[0] && (a + b)[1..] == a[1..] + b;
        ApplyAllConcat(a[1..], b, Apply(a[0], data).value);
      }
    }

    /** On success the result is the response sent through registered converters along such a path. */
    lemma {:induction false} SuccessMeaning(types: seq<string>, i: nat, prev: string, data: Data)
      returns (path: seq<Converter>)
      requires Valid() && Convert(types, i, prev, data).Success?
      ensures Travels(types, i, prev, path) && ApplyAll(path, data) == Some(Convert(types, i, prev, data).data)
      decreases |types| - i
    {
      if i >= |types| || types[i] == "" {
        path := [];
      } else if types[i] == ANY {
        path := SuccessMeaning(types, i + 1, prev, data);
      } else {
        var cs := Chosen(prev, types[i]).value;
        var next := ApplyAll(cs, data).value;
        var rest := SuccessMeaning(types, i + 1, types[i], next);
        path := cs + rest;
        ApplyAllConcat(cs, rest, data);
        assert path[|cs|..] == rest;
        if |cs| == 2 {
          var j := PairIsFirst(prev, types[i], 0);
          assert Hop(prev, keys[j].from, path[0]) && path[1] == converters[keys[j]];
        } else if |cs| == 0 {
          assert path == rest;
        }
      }
    }

    /** One conversion, read from the settings: nothing for the same type or from any type, else the exact converter
        or the one for any type, where `true` keeps the data and a function gives its result or throws. */
    lemma {:induction false} OneConversion(prev: string, current: string, data: Data)
      requires Valid() && current != "" && current != ANY
      requires prev == ANY || prev == current || Takes(prev, current)
      ensures var key := if Key(prev, current) in converters then Key(prev, current) else Key(ANY, current);
              Convert([prev, current], 1, prev, data) ==
                if prev == ANY || prev == current || converters[key] == Equivalent then Success(data)
                else var r := run(converters[key].id, data); if r.None? then Threw else Success(r.value)
    {
      var types := [prev, current];
      assert types[1] == current;
      if prev == ANY || prev == current {
        assert ApplyAll([], data) == Some(data);
        assert Convert(types, 2, current, data) == Success(data);
      } else {
        ApplyTwo(Direct(prev, current).value, Equivalent, data);
      }
    }

    // The loop

    lemma {:induction false} SameRest(types: seq<string>, i: nat, types': seq<string>, j: nat, prev: string, data: Data)
      requires (forall k | k in keys :: k in converters) && i <= |types| && j <= |types'| && types[i..] == types'[j..]
      ensures Convert(types, i, prev, data) == Convert(types', j, prev, data)
      decreases |types| - i
    {
      assert |types[i..]| == |types'[j..]|;
      if i < |types| {
        assert types[i..][0] == types[i] && types'[j..][0] == types'[j];
        assert types[i + 1..] == types[i..][1..] == types'[j..][1..] == types'[j + 1..];
        if types[i] == ANY {
          SameRest(types, i + 1, types', j + 1, prev, data);
        } else if types[i] != "" && Chosen(prev, types[i]).Some? {
          var next := ApplyAll(Chosen(prev, types[i]).value, data);
          if next.Some? {
            SameRest(types, i + 1, types', j + 1, types[i], next.value);
          }
        }
      }
    }

    lemma ApplyTwo(a: Converter, b: Converter, data: Data)
      ensures ApplyAll([a], data) == Apply(a, data)
      ensures ApplyAll([a, b], data) == if Apply(a, data).None? then None else Apply(b, Apply(a, data).value)
    {
      assert [a, b][1..] == [b] && [a][1..] == [] && [b][1..] == [];
      if Apply(a, data).Some? {
        assert ApplyAll([b], Apply(a, data).value) == Apply(b, Apply(a, data).value);
      }
    }

    /** Inserting the intermediate type in front of `types[i]` and making the first conversion gets to the same
        result: the walk passes the inserted type and finds the second converter directly. */
    lemma Inserted(types: seq<string>, i: nat, prev: string, data: Data)
      requires Valid() && i < |types| && types[i] != ANY && types[i] != "" && prev != ANY && prev != types[i]
      requires Direct(prev, types[i]).None? && Pair(prev, types[i], 0).Some?
      ensures var pair := Pair(prev, types[i], 0).value;
              var first := Apply(Direct(prev, pair.from).value, data);
              && pair.from != ANY && pair.from != types[i] && Direct(pair.from, types[i]) == Some(converters[pair])
              && Convert(types, i, prev, data) ==
                 if first.None? then Threw
                 else Convert(types[..i] + [pair.from] + types[i..], i, pair.from, first.value)
    {
      var pair := Pair(prev, types[i], 0).value;
      var first := Apply(Direct(prev, pair.from).value, data);
      var types' := types[..i] + [pair.from] + types[i..];
      assert pair == Key(pair.from, types[i]);
      assert types'[i] == pair.from && types'[i + 1] == types[i] && types'[i + 2..] == types[i + 1..];
      if first.Some? {
        var second := Apply(converters[pair], first.value);
        ApplyTwo(Direct(prev, pair.from).value, converters[pair], data);
        ApplyTwo(converters[pair], converters[pair], first.value);
        assert Convert(types', i, pair.from, first.value) == Convert(types', i + 1, pair.from, first.value);
        assert Chosen(pair.from, types[i]) == Some([converters[pair]]);
        if second.Some? {
          SameRest(types, i + 1, types', i + 2, types[i], second.value);
        }
      }
    }

    /** `conv2`: the first usable pair. */
    method FindPair(prev: string, current: string) returns (pair: Option<Key>)
      requires Valid()
      ensures pair == Pair(prev, current, 0)
    {
      var i := 0;
      while i < |keys|
        invariant 0 <= i <= |keys| && Pair(prev, current, 0) == Pair(prev, current, i)
      {
        if keys[i].to == current && Direct(prev, keys[i].from).Some? {
          return Some(keys[i]);
        }
        i := i + 1;
      }
      pair := None;
    }
  }

  method Convert(s: Settings, dataTypes: seq<string>, input: Data) returns (r: Result)
    requires s.Valid() && dataTypes != []
    ensures r == s.Convert(dataTypes, 1, dataTypes[0], input)
  {
    var types, response := dataTypes, input;
    var i, prev := 0, types[0];
    // `left` requested types are still to come; `stage` is 2 when the next type needs a choice,
    // 1 when it is an inserted one, 0 when a direct converter to it is known.
    ghost var left, stage := |types| - 1, 2;
    while i + 1 < |types| && types[i + 1] != ""
      invariant 0 <= i < |types|
      invariant s.Convert(dataTypes, 1, dataTypes[0], input) == s.Convert(types, i + 1, prev, response)
      invariant 0 <= stage <= 2 && left == |types| - 1 - i - (if stage == 1 then 1 else 0)
      invariant stage == 0 ==> left > 0 && s.Direct(prev, types[i + 1]).Some?
      invariant stage == 1 ==> left > 0 && prev == types[i + 1] != ANY && s.Direct(prev, types[i + 2]).Some?
      decreases 3 * left + stage
    {
      i := i + 1;
      var current := types[i];
      ghost var inserted := stage == 1;
      left, stage := if inserted then left else left - 1, if inserted then 0 else 2;
      if current != ANY {
        if prev != ANY && prev != current {
          var conv := s.Direct(prev, current);
          s.ApplyTwo(if conv.Some? then conv.value else Equivalent, Equivalent, response);
          if conv.None? {
            var conv2 := s.FindPair(prev, current);
            if conv2.None? {
              return NoConversion(prev, current);
            }
            conv := s.Direct(prev, conv2.value.from);
            s.ApplyTwo(conv.value, s.converters[conv2.value], response);
            if conv == Some(Equivalent) {
              conv := Some(s.converters[conv2.value]);
            } else if s.converters[conv2.value] != Equivalent {
              s.Inserted(types, i, prev, response);
              current := conv2.value.from;
              types := types[..i] + [current] + types[i..];
              i := i - 1;
              left, stage := left + 1, 1;
            }
          }
          var next := s.Apply(conv.value, response);
          if next.None? {
            return Threw;
          }
          response := next.value;
        }
        prev := current;
      }
    }
    r := Success(response);
  }
}

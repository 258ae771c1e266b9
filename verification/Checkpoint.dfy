/** The header of a checkpoint (src/io/Checkpoint.cpp:47-68, 82-108): time, step and named scalars
    as attributes of a group, the scalar names joined by commas. */
module Checkpoints {
  import opened Decomposition

  /** An attribute value; text is stored padded with NULs (src/io/Hdf5Output.cpp:465-537). */
  datatype Attribute = Number(value: real) | Whole(count: int) | Text(text: string)

  datatype Header = Header(t: real, step: int, scalars: map<string, real>)

  // ----- names

  /** The joined names: a comma before every name unless nothing was written yet. */
  function Joined(names: seq<string>): string {
    if names == [] then ""
    else
      var before, name := Joined(names[..|names| - 1]), names[|names| - 1];
      if before == "" then name else before + "," + name
  }

  /** The first comma at or after begin, or the end. */
  function CommaFrom(s: string, begin: nat): (end: nat)
    requires begin <= |s|
    ensures begin <= end <= |s| && ',' !in s[begin..end] && (end < |s| ==> s[end] == ',')
    decreases |s| - begin
  {
    if begin == |s| || s[begin] == ',' then begin else CommaFrom(s, begin + 1)
  }

  /** The nonempty pieces between commas. */
  function Tokens(s: string): seq<string>
    decreases |s|
  {
    if s == "" then []
    else
      var end := CommaFrom(s, 0);
      var first := if end == 0 then [] else [s[..end]];
      if end == |s| then first else first + Tokens(s[end + 1..])
  }

  predicate CommaFree(name: string) { ',' !in name }

  lemma {:induction false} FirstCommaOf(s: string, begin: nat, c: nat)
    requires begin <= c <= |s| && ',' !in s[begin..c] && (c < |s| ==> s[c] == ',')
    ensures CommaFrom(s, begin) == c
    decreases c - begin
  {
    if begin < c {
      assert s[begin] == s[begin..c][0];
      assert s[begin + 1..c] == s[begin..c][1..];
      FirstCommaOf(s, begin + 1, c);
    }
  }

  lemma {:induction false} TokensOfTwo(p: string, q: string)
    ensures Tokens(p + "," + q) == Tokens(p) + Tokens(q)
    decreases |p|
  {
    var s := p + "," + q;
    var e := CommaFrom(p, 0);
    assert s[0..e] == p[0..e];
    assert s[e] == ',' by { if e == |p| { assert s[|p|] == ','; } else { assert s[e] == p[e]; } }
    FirstCommaOf(s, 0, e);
    if e == |p| {
      assert s[e + 1..] == q && s[..e] == p;
    } else {
      assert s[e + 1..] == p[e + 1..] + "," + q && s[..e] == p[..e];
      TokensOfTwo(p[e + 1..], q);
    }
  }

  lemma TokensOfName(name: string)
    requires name != "" && CommaFree(name)
    ensures Tokens(name) == [name]
  {
    assert name[0..|name|] == name;
    FirstCommaOf(name, 0, |name|);
    assert name[..|name|] == name;
  }

  /** Splitting undoes joining on nonempty comma-free names. */
  lemma {:induction false} TokensOfJoined(names: seq<string>)
    requires forall n :: n in names ==> n != "" && CommaFree(n)
    ensures Tokens(Joined(names)) == names && (names != [] ==> Joined(names) != "")
  {
    if names != [] {
      hide Tokens;
      var last := |names| - 1;
      assert names == names[..last] + [names[last]];
      forall n | n in names[..last] ensures n in names {}
      assert names[last] in names;
      TokensOfJoined(names[..last]);
      TokensOfName(names[last]);
      if Joined(names[..last]) == "" {
        assert names[..last] == [];
      } else {
        TokensOfTwo(Joined(names[..last]), names[last]);
      }
    }
  }

  lemma {:induction false} TokensArePlain(s: string)
    ensures forall n :: n in Tokens(s) ==> n != "" && CommaFree(n)
    decreases |s|
  {
    if s != "" {
      var end := CommaFrom(s, 0);
      assert s[0..end] == s[..end];
      if end < |s| { TokensArePlain(s[end + 1..]); }
    }
  }

  // ----- attributes

  const PREFIX := "scalar_"
  const NAMES := "scalar_names"

  /** The attribute of a scalar. */
  function Key(name: string): string { PREFIX + name }

  lemma PrefixInjective(a: string, b: string)
    requires Key(a) == Key(b)
    ensures a == b
  {
    assert Key(a)[|PREFIX|..] == a && Key(b)[|PREFIX|..] == b;
  }

  lemma PrefixApart(a: string)
    ensures Key(a) != "t" && Key(a) != "step" && (Key(a) == NAMES <==> a == "names")
  {
    assert NAMES == Key("names");
    if Key(a) == NAMES { PrefixInjective(a, "names"); }
    assert Key(a)[1] == 'c' && |Key(a)| >= 7;
  }

  /** The scalars' attributes, written in the map's order. */
  function WithScalars(attrs: map<string, Attribute>, order: seq<string>, values: map<string, real>): map<string,
    Attribute>
    requires forall n :: n in order ==> n in values
  {
    if order == [] then attrs
    else
      var last := |order| - 1;
      WithScalars(attrs, order[..last], values)[Key(order[last]) := Number(values[order[last]])]
  }

  function Written(attrs: map<string, Attribute>, t: real, step: int, order: seq<string>, values: map<string,
                   real>): map<string, Attribute>
    requires forall n :: n in order ==> n in values
  {
    WithScalars(attrs["t" := Number(t)]["step" := Whole(step)], order, values)[NAMES := Text(Joined(order))]
  }

  /** Trailing NULs are padding. */
  function Unpadded(s: string): string {
    if s == "" || s[|s| - 1] != '\0' then s else Unpadded(s[..|s| - 1])
  }

  /** The named scalars, or an error at a missing or non-numeric attribute. */
  function Scalars(attrs: map<string, Attribute>, names: seq<string>): Result<map<string, real>> {
    if names == [] then Ok(map[])
    else
      var before := Scalars(attrs, names[..|names| - 1]);
      var name := names[|names| - 1];
      if before.Err? then before
      else if Key(name) in attrs && attrs[Key(name)].Number? then Ok(before.value[name := attrs[Key(name)].value])
      else Err("attribute")
  }

  function Parsed(attrs: map<string, Attribute>): Result<Header> {
    if !("t" in attrs && attrs["t"].Number? && "step" in attrs && attrs["step"].Whole? && NAMES in attrs
         && attrs[NAMES].Text?)
    then Err("attribute")
    else
      var scalars := Scalars(attrs, Tokens(Unpadded(attrs[NAMES].text)));
      if scalars.Err? then Err(scalars.message) else Ok(Header(attrs["t"].value, attrs["step"].count, scalars.value))
  }

  // ----- the round trip

  lemma {:induction false} ScalarWritten(attrs: map<string, Attribute>, order: seq<string>, values: map<string, real>,
                                         key: string)
    requires forall n :: n in order ==> n in values
    ensures key in order ==> Key(key) in WithScalars(attrs, order, values)
                             && WithScalars(attrs, order, values)[Key(key)] == Number(values[key])
    ensures "t" in attrs ==> "t" in WithScalars(attrs, order, values) && WithScalars(attrs, order, values)["t"]
                             == attrs["t"]
    ensures "step" in attrs ==> "step" in WithScalars(attrs, order, values)
                                && WithScalars(attrs, order, values)["step"] == attrs["step"]
  {
    if order != [] {
      var last := |order| - 1;
      ScalarWritten(attrs, order[..last], values, key);
      PrefixApart(order[last]);
      assert order == order[..last] + [order[last]];
      if Key(key) == Key(order[last]) { PrefixInjective(key, order[last]); }
    }
  }

  /** Reading names that are all there collects exactly their values. */
  lemma {:induction false} ScalarsRead(attrs: map<string, Attribute>, names: seq<string>, values: map<string, real>)
    requires forall n :: n in names ==> n in values && Key(n) in attrs && attrs[Key(n)] == Number(values[n])
    ensures Scalars(attrs, names).Ok?
    ensures forall n :: n in Scalars(attrs, names).value <==> n in names
    ensures forall n :: n in names ==> Scalars(attrs, names).value[n] == values[n]
  {
    hide Key;
    if names != [] {
      var last := |names| - 1;
      assert names == names[..last] + [names[last]];
      assert forall n :: n in names <==> n in names[..last] || n == names[last];
      ScalarsRead(attrs, names[..last], values);
    }
  }

  lemma {:induction false} ScalarsKeys(attrs: map<string, Attribute>, names: seq<string>)
    requires Scalars(attrs, names).Ok?
    ensures forall n :: n in Scalars(attrs, names).value ==> n in names
    ensures forall n :: n in names ==> Key(n) in attrs && attrs[Key(n)].Number?
  {
    if names != [] {
      var last := |names| - 1;
      ScalarsKeys(attrs, names[..last]);
      assert names == names[..last] + [names[last]];
    }
  }

  lemma {:induction false} JoinedClean(names: seq<string>)
    requires forall n :: n in names ==> '\0' !in n
    ensures '\0' !in Joined(names) && Unpadded(Joined(names)) == Joined(names)
  {
    if names != [] {
      JoinedClean(names[..|names| - 1]);
      assert names[|names| - 1] in names;
    }
  }

  /** A name that survives: not empty, no comma, and not the one whose attribute is the name list. */
  predicate Restorable(name: string) { name != "" && CommaFree(name) && name != "names" }

  /** Main result: a checkpoint over any earlier attributes reads back exactly what was written if
      and only if every scalar's name is restorable. Names are NUL-free, as C strings are. */
  lemma HeaderRestoredIff(attrs: map<string, Attribute>, t: real, step: int, order: seq<string>, values: map<string,
                          real>)
    requires values.Keys == (set n | n in order) && forall n :: n in order ==> '\0' !in n
    ensures Parsed(Written(attrs, t, step, order, values)) == Ok(Header(t, step, values)) <==> forall n ::
      n in order ==> Restorable(n)
  {
    var base := attrs["t" := Number(t)]["step" := Whole(step)];
    var put := WithScalars(base, order, values);
    var all := Written(attrs, t, step, order, values);
    assert all == put[NAMES := Text(Joined(order))];
    ScalarWritten(base, order, values, "");
    JoinedClean(order);
    var tokens := Tokens(Joined(order));
    assert NAMES != "t" && NAMES != "step" by { PrefixApart("names"); }
    assert Parsed(all) == (var s := Scalars(all, tokens); if s.Err? then Err(s.message)
                           else Ok(Header(t, step, s.value)));
    if forall n :: n in order ==> Restorable(n) {
      TokensOfJoined(order);
      forall n | n in order ensures Key(n) in all && all[Key(n)] == Number(values[n]) {
        ScalarWritten(base, order, values, n);
        PrefixApart(n);
      }
      ScalarsRead(all, order, values);
      assert Scalars(all, order).value == values;
    }
    if Parsed(all) == Ok(Header(t, step, values)) {
      ScalarsKeys(all, tokens);
      TokensArePlain(Joined(order));
      forall n | n in order ensures Restorable(n) {
        assert n in values.Keys;
        PrefixApart(n);
      }
    }
  }

  // ----- the group

  class Group {
    var attrs: map<string, Attribute>

    constructor ()
      ensures attrs == map[]
    {
      attrs := map[];
    }

    method Write(t: real, step: int, order: seq<string>, values: map<string, real>)
      requires forall n :: n in order ==> n in values
      modifies this
      ensures attrs == Written(old(attrs), t, step, order, values)
    {
      attrs := attrs["t" := Number(t)];
      attrs := attrs["step" := Whole(step)];
      ghost var base := attrs;
      for n: nat := 0 to |order|
        invariant attrs == WithScalars(base, order[..n], values)
      {
        attrs := attrs[Key(order[n]) := Number(values[order[n]])];
        assert order[..n + 1][..n] == order[..n];
      }
      var names := "";
      for n: nat := 0 to |order|
        invariant names == Joined(order[..n])
      {
        names := if names == "" then order[n] else names + "," + order[n];
        assert order[..n + 1][..n] == order[..n];
      }
      assert order[..|order|] == order;
      attrs := attrs[NAMES := Text(names)];
    }

    method Read() returns (r: Result<Header>)
      ensures r == Parsed(attrs)
    {
      if !("t" in attrs && attrs["t"].Number? && "step" in attrs && attrs["step"].Whole? && NAMES in attrs
           && attrs[NAMES].Text?) {
        return Err("attribute");
      }
      var scalars := ReadScalars(Unpadded(attrs[NAMES].text));
      if scalars.Err? { return Err("attribute"); }
      return Ok(Header(attrs["t"].value, attrs["step"].count, scalars.value));
    }

    /** The loop over the pieces of the name list. */
    method ReadScalars(names: string) returns (r: Result<map<string, real>>)
      ensures r == Scalars(attrs, Tokens(names)) && (r.Err? ==> r.message == "attribute")
    {
      hide Tokens, Scalars, Rest, Key, CommaFrom;
      var scalars: map<string, real> := map[];
      var begin: nat := 0;
      ghost var done: seq<string> := [];
      StartOfRest(names);
      ScalarsOfNone(attrs);
      while begin < |names|
        invariant Tokens(names) == done + Rest(names, begin)
        invariant Scalars(attrs, done) == Ok(scalars)
        decreases |names| + 1 - begin
      {
        var end := CommaFrom(names, begin);
        Piece(names, begin);
        if end > begin {
          var name := names[begin..end];
          ScalarsOfMore(attrs, done, name);
          if !(Key(name) in attrs && attrs[Key(name)].Number?) {
            ScalarsStop(attrs, done + [name], Tokens(names));
            return Err("attribute");
          }
          scalars := scalars[name := attrs[Key(name)].value];
          done := done + [name];
        }
        begin := end + 1;
      }
      EndOfRest(names, begin);
      assert done + [] == done;
      return Ok(scalars);
    }
  }

  /** The pieces from begin on. */
  ghost function Rest(s: string, begin: nat): seq<string> { if begin <= |s| then Tokens(s[begin..]) else [] }

  lemma StartOfRest(s: string)
    ensures Rest(s, 0) == Tokens(s)
  {
    assert s[0..] == s;
  }

  lemma EndOfRest(s: string, begin: nat)
    requires begin >= |s|
    ensures Rest(s, begin) == []
  {
  }

  /** The piece up to the next comma, then the rest. */
  lemma Piece(s: string, begin: nat)
    requires begin < |s|
    ensures Rest(s, begin) == (if CommaFrom(s, begin) > begin then [s[begin..CommaFrom(s, begin)]] else [])
            + Rest(s, CommaFrom(s, begin) + 1)
  {
    var end := CommaFrom(s, begin);
    var q := s[begin..];
    assert q[0..end - begin] == s[begin..end];
    FirstCommaOf(q, 0, end - begin);
    if end < |s| { assert q[end - begin + 1..] == s[end + 1..]; }
    assert q[..end - begin] == s[begin..end];
  }

  lemma ScalarsOfNone(attrs: map<string, Attribute>)
    ensures Scalars(attrs, []) == Ok(map[])
  {
  }

  lemma ScalarsOfMore(attrs: map<string, Attribute>, done: seq<string>, name: string)
    requires Scalars(attrs, done).Ok?
    ensures Scalars(attrs, done + [name]) == if Key(name) in attrs && attrs[Key(name)].Number?
              then Ok(Scalars(attrs, done).value[name := attrs[Key(name)].value]) else Err("attribute")
  {
    assert (done + [name])[..|done|] == done;
  }

  /** An unreadable name stops the whole read. */
  lemma {:induction false} ScalarsStop(attrs: map<string, Attribute>, some: seq<string>, all: seq<string>)
    requires some <= all && Scalars(attrs, some) == Err("attribute")
    ensures Scalars(attrs, all) == Err("attribute")
    decreases |all|
  {
    if |some| < |all| { ScalarsStop(attrs, some, all[..|all| - 1]); } else { assert some == all; }
  }
}

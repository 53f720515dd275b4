/** The server's variables: one per name, each with the chain of its values. */
module FormVars {
  import opened Bytes
  import opened UrlCodec

  type text = seq<U8>

  datatype Var = Var(name: text, values: seq<text>)

  // ----- the list as a value

  /** Without leading blanks and tabs. */
  function Strip(name: text): text {
    if name != [] && (name[0] == BLANK || name[0] == 9) then Strip(name[1..]) else name
  }

  /** The first variable of that name, or the end. */
  function Find(vars: seq<Var>, name: text): (k: nat)
    ensures k <= |vars|
    ensures forall i :: 0 <= i < k ==> vars[i].name != name
    ensures k < |vars| ==> vars[k].name == name
  {
    if vars == [] || vars[0].name == name then 0 else 1 + Find(vars[1..], name)
  }

  /** The value goes to the end of its variable's chain, a new variable to the end of the list. */
  function Append(vars: seq<Var>, name: text, value: text): seq<Var> {
    var k := Find(vars, name);
    if k < |vars| then vars[k := Var(name, vars[k].values + [value])]
    else vars + [Var(name, [value])]
  }

  /** httpdAddVariable */
  function Add(vars: seq<Var>, name: text, value: text): seq<Var> {
    Append(vars, Strip(name), value)
  }

  /** All values of a name, in order. */
  function Values(vars: seq<Var>, name: text): seq<text> {
    var k := Find(vars, name);
    if k < |vars| then vars[k].values else []
  }

  ghost predicate Distinct(vars: seq<Var>) {
    forall i, j :: 0 <= i < j < |vars| ==> vars[i].name != vars[j].name
  }

  lemma FindIs(vars: seq<Var>, name: text, k: nat)
    requires k < |vars| && vars[k].name == name && forall i :: 0 <= i < k ==> vars[i].name != name
    ensures Find(vars, name) == k
  {
  }

  lemma FindNone(vars: seq<Var>, name: text)
    requires forall i :: 0 <= i < |vars| ==> vars[i].name != name
    ensures Find(vars, name) == |vars|
  {
  }

  /** Adding a value puts it after the values its name has, leaves all others alone, and keeps names distinct. */
  lemma AppendValues(vars: seq<Var>, name: text, value: text, other: text)
    requires Distinct(vars)
    ensures var r := Append(vars, name, value);
            && Distinct(r)
            && Values(r, other) == Values(vars, other) + if other == name then [value] else []
  {
    hide Find;
    var k, r, m := Find(vars, name), Append(vars, name, value), Find(vars, other);
    if other == name {
      FindIs(r, name, k);
    } else if m < |vars| {
      FindIs(r, other, m);
      assert Values(r, other) == Values(vars, other);
    } else {
      assert forall i :: 0 <= i < |r| ==> r[i].name != other;
    }
  }

  // ----- the list in memory

  class HttpVar {
    const name: text
    const value: text
    var nextValue: HttpVar?
    var nextVariable: HttpVar?

    constructor (name: text, value: text)
      ensures this.name == name && this.value == value && nextValue == null && nextVariable == null
    {
      this.name, this.value := name, value;
      nextValue, nextVariable := null, null;
    }
  }

  ghost function After(nodes: seq<HttpVar>, i: nat): HttpVar? {
    if i + 1 < |nodes| then nodes[i + 1] else null
  }

  ghost function Head(rows: seq<seq<HttpVar>>, i: nat): HttpVar? {
    if i < |rows| && rows[i] != [] then rows[i][0] else null
  }

  /** Along a variable's values. */
  ghost predicate ValueLink(nodes: seq<HttpVar>, j: nat)
    requires j < |nodes|
    reads nodes[j]
  {
    nodes[j].nextValue == After(nodes, j)
  }

  /** From variable to variable. */
  ghost predicate VariableLink(rows: seq<seq<HttpVar>>, i: nat)
    requires i < |rows| && rows[i] != []
    reads rows[i][0]
  {
    rows[i][0].nextVariable == Head(rows, i + 1)
  }

  /** The chains of values, and the place of every node in them: no node stands in two places. */
  ghost predicate Shape(rows: seq<seq<HttpVar>>, place: map<HttpVar, (nat, nat)>) {
    && (forall i :: 0 <= i < |rows| ==> rows[i] != [])
    && (forall i, j :: 0 <= i < |rows| && 0 <= j < |rows[i]| ==>
          rows[i][j] in place && place[rows[i][j]] == (i, j) && rows[i][j].name == rows[i][0].name)
  }

  ghost function Chain(nodes: seq<HttpVar>): (r: seq<text>)
    ensures |r| == |nodes| && forall i :: 0 <= i < |nodes| ==> r[i] == nodes[i].value
  {
    seq(|nodes|, i requires 0 <= i < |nodes| => nodes[i].value)
  }

  ghost function Vars(rows: seq<seq<HttpVar>>): (r: seq<Var>)
    requires forall i :: 0 <= i < |rows| ==> rows[i] != []
    ensures |r| == |rows| && forall i :: 0 <= i < |rows| ==> r[i] == Var(rows[i][0].name, Chain(rows[i]))
  {
    seq(|rows|, i requires 0 <= i < |rows| && rows[i] != [] => Var(rows[i][0].name, Chain(rows[i])))
  }

  lemma Heads(rows: seq<seq<HttpVar>>, place: map<HttpVar, (nat, nat)>, i: nat)
    requires Shape(rows, place) && i <= |rows|
    ensures Head(rows, i) == (if i < |rows| then rows[i][0] else null)
    ensures i < |rows| ==> Vars(rows)[i].name == rows[i][0].name
    ensures Head(rows, i) == null <==> i == |rows|
  {
  }

  lemma ShapeNewValue(rows: seq<seq<HttpVar>>, place: map<HttpVar, (nat, nat)>, i: nat, x: HttpVar)
    requires Shape(rows, place) && i < |rows| && x !in place && x.name == rows[i][0].name
    ensures var r := rows[i := rows[i] + [x]];
            && Shape(r, place[x := (i, |rows[i]|)])
            && Vars(r) == Vars(rows)[i := Var(x.name, Chain(rows[i]) + [x.value])]
  {
    var r := rows[i := rows[i] + [x]];
    assert Chain(rows[i] + [x]) == Chain(rows[i]) + [x.value];
  }

  lemma ShapeNewVariable(rows: seq<seq<HttpVar>>, place: map<HttpVar, (nat, nat)>, x: HttpVar)
    requires Shape(rows, place) && x !in place
    ensures var r := rows + [[x]];
            && Shape(r, place[x := (|rows|, 0)])
            && Vars(r) == Vars(rows) + [Var(x.name, [x.value])]
  {
    assert Chain([x]) == [x.value];
  }

  class Httpd {
    var variables: HttpVar?
    ghost var rows: seq<seq<HttpVar>>           // each variable's chain of values
    ghost var place: map<HttpVar, (nat, nat)>

    /** The links are those of the chains. */
    ghost predicate Valid()
      reads this, place.Keys
    {
      && Shape(rows, place)
      && variables == Head(rows, 0)
      && (forall i :: 0 <= i < |rows| ==> VariableLink(rows, i))
      && (forall i, j :: 0 <= i < |rows| && 0 <= j < |rows[i]| ==> ValueLink(rows[i], j))
    }

    ghost function View(): seq<Var>
      requires Valid()
      reads this, place.Keys
    {
      Vars(rows)
    }

    constructor ()
      ensures Valid() && View() == [] && place == map[]
    {
      variables, rows, place := null, [], map[];
    }

    /** httpdGetVariableByName */
    method GetVariableByName(name: text) returns (r: HttpVar?)
      requires Valid()
      ensures r == Head(rows, Find(View(), name))
    {
      hide Find;
      ghost var i := 0;
      r := variables;
      while r != null
        invariant 0 <= i <= |rows| && r == Head(rows, i)
        invariant forall j :: 0 <= j < i ==> View()[j].name != name
        decreases |rows| - i
      {
        if r.name == name {
          FindIs(View(), name, i);
          return;
        }
        assert VariableLink(rows, i);
        r := r.nextVariable;
        i := i + 1;
      }
    }

    /** The new node becomes the last value of variable i. */
    method LinkValue(ghost i: nat, lastVar: HttpVar, newVar: HttpVar)
      requires Valid() && i < |rows| && lastVar == rows[i][|rows[i]| - 1] && newVar !in place
      requires newVar.name == rows[i][0].name && newVar.nextValue == null
      modifies this`rows, this`place, lastVar
      ensures Valid() && place.Keys == old(place.Keys) + {newVar}
      ensures View() == old(View())[i := Var(newVar.name, old(View())[i].values + [newVar.value])]
    {
      ShapeNewValue(rows, place, i, newVar);
      hide Vars;
      ghost var rs := rows;
      lastVar.nextValue := newVar;
      place := place[newVar := (i, |rows[i]|)];
      rows := rows[i := rows[i] + [newVar]];
      forall k | 0 <= k < |rows| ensures VariableLink(rows, k) {
        assert old(VariableLink(rs, k));
      }
      forall k, l | 0 <= k < |rows| && 0 <= l < |rows[k]| ensures ValueLink(rows[k], l) {
        assert l < |rs[k]| ==> old(ValueLink(rs[k], l)) && rows[k][l] == rs[k][l];
      }
    }

    /** The inner loop of httpdAddVariable: to the end of one variable's values, and the new value linked there. */
    method AppendValue(ghost i: nat, first: HttpVar, newVar: HttpVar)
      requires Valid() && i < |rows| && first == rows[i][0] && newVar !in place
      requires newVar.name == first.name && newVar.nextValue == null
      modifies this`rows, this`place, place.Keys
      ensures Valid() && place.Keys == old(place.Keys) + {newVar}
      ensures View() == old(View())[i := Var(first.name, old(View())[i].values + [newVar.value])]
    {
      hide Vars;
      assert ValueLink(rows[i], 0);
      var lastVar, curVar: HttpVar? := first, first.nextValue;
      ghost var j := 0;
      while curVar != null
        invariant 0 <= j < |rows[i]| && lastVar == rows[i][j] && curVar == After(rows[i], j)
        modifies {}
        decreases |rows[i]| - j
      {
        assert ValueLink(rows[i], j + 1);
        lastVar := curVar;
        curVar := curVar.nextValue;
        j := j + 1;
      }
      LinkValue(i, lastVar, newVar);
    }

    /** The tail of httpdAddVariable: a new variable after the last one. */
    method AppendVariable(lastVar: HttpVar?, newVar: HttpVar)
      requires Valid() && newVar !in place && newVar.nextValue == null && newVar.nextVariable == null
      requires lastVar == if rows == [] then null else Head(rows, |rows| - 1)
      modifies this, place.Keys
      ensures Valid() && place.Keys == old(place.Keys) + {newVar}
      ensures View() == old(View()) + [Var(newVar.name, [newVar.value])]
    {
      ShapeNewVariable(rows, place, newVar);
      hide Vars;
      ghost var rs := rows;
      if lastVar != null {
        lastVar.nextVariable := newVar;
      } else {
        variables := newVar;
      }
      place := place[newVar := (|rows|, 0)];
      rows := rows + [[newVar]];
      forall k | 0 <= k < |rows| ensures VariableLink(rows, k) {
        assert k < |rs| ==> old(VariableLink(rs, k)) && rows[k][0] == rs[k][0];
      }
      forall k, l | 0 <= k < |rows| && 0 <= l < |rows[k]| ensures ValueLink(rows[k], l) {
        assert k < |rs| ==> old(ValueLink(rs[k], l)) && rows[k][l] == rs[k][l];
      }
    }

    /** httpdAddVariable */
    method AddVariable(name: text, value: text)
      requires Valid()
      modifies this, place.Keys
      ensures Valid() && View() == Add(old(View()), name, value)
      ensures place.Keys >= old(place.Keys) && fresh(place.Keys - old(place.Keys))
    {
      hide Find, Shape, Vars;
      var key := name;
      while key != [] && (key[0] == BLANK || key[0] == 9)
        invariant Strip(key) == Strip(name)
        decreases |key|
      {
        key := key[1..];
      }
      var newVar := new HttpVar(key, value);
      var lastVar: HttpVar?, curVar := null, variables;
      ghost var i := 0;
      Heads(rows, place, 0);
      while curVar != null && curVar.name != key
        invariant 0 <= i <= |rows| && curVar == Head(rows, i)
        invariant lastVar == if i > 0 then Head(rows, i - 1) else null
        invariant forall j :: 0 <= j < i ==> View()[j].name != key
        modifies {}
        decreases |rows| - i
      {
        Heads(rows, place, i);
        assert VariableLink(rows, i);
        lastVar := curVar;
        curVar := curVar.nextVariable;
        i := i + 1;
      }
      Heads(rows, place, i);
      if curVar != null {
        FindIs(View(), key, i);
        AppendValue(i, curVar, newVar);
      } else {
        FindNone(View(), key);
        AppendVariable(lastVar, newVar);
      }
    }
  }
}

/** Building a request's field set from a form's controls.

    Both scrapers walk `form.find_all('input')` and `form.find_all('select')`
    and store `data[c['name']] = c.get('value')` for every control whose name
    attribute is present and non-empty; a later control overwrites an earlier
    one of the same name. */
module FormState {
  import opened Wrappers
  import opened Html

  /** Python's `data` dict: field name to value, where a value may be None. */
  type Fields = map<string, Option<string>>

  /** `c.get('name')` is truthy. */
  predicate Named(c: Control) { c.name.Some? && c.name.value != "" }

  /** A button the RRC search form must not send: every button but `Search`. */
  predicate OtherButton(c: Control) { c.typ == Some("button") && c.value != Some("Search") }

  /** Whether the harvesting loop stores control `c`; `searchButtonOnly`
      selects the RRC variant that first skips the other buttons. */
  predicate Sent(c: Control, searchButtonOnly: bool) {
    Named(c) && !(searchButtonOnly && OtherButton(c))
  }

  /** The field set after the harvesting loop has run over `cs`, starting
      from `data`. */
  function Harvest(data: Fields, cs: seq<Control>, searchButtonOnly: bool): Fields
    decreases |cs|
  {
    if cs == [] then data
    else
      var next := if Sent(cs[0], searchButtonOnly) then data[cs[0].name.value := cs[0].value] else data;
      Harvest(next, cs[1..], searchButtonOnly)
  }

  /** The names the loop stores. */
  function SentNames(cs: seq<Control>, searchButtonOnly: bool): set<string> {
    set i | 0 <= i < |cs| && Sent(cs[i], searchButtonOnly) :: cs[i].name.value
  }

  lemma SentNamesCons(cs: seq<Control>, b: bool)
    requires cs != []
    ensures SentNames(cs, b) == (if Sent(cs[0], b) then {cs[0].name.value} else {}) + SentNames(cs[1..], b)
  {
    var tail := cs[1..];
    forall x | x in SentNames(cs, b)
      ensures x in (if Sent(cs[0], b) then {cs[0].name.value} else {}) + SentNames(tail, b)
    {
      var i :| 0 <= i < |cs| && Sent(cs[i], b) && cs[i].name.value == x;
      if i > 0 {
        assert tail[i - 1] == cs[i];
      }
    }
    forall x | x in SentNames(tail, b) ensures x in SentNames(cs, b) {
      var i :| 0 <= i < |tail| && Sent(tail[i], b) && tail[i].name.value == x;
      assert cs[i + 1] == tail[i];
    }
  }

  /** The harvested keys are the starting keys plus the names of the stored
      controls, no more and no fewer. */
  lemma {:induction false} HarvestKeys(data: Fields, cs: seq<Control>, b: bool)
    ensures Harvest(data, cs, b).Keys == data.Keys + SentNames(cs, b)
    decreases |cs|
  {
    if cs != [] {
      var next := if Sent(cs[0], b) then data[cs[0].name.value := cs[0].value] else data;
      HarvestKeys(next, cs[1..], b);
      SentNamesCons(cs, b);
    }
  }

  /** A key that no stored control names keeps its starting entry (or stays
      absent). */
  lemma {:induction false} HarvestUntouched(data: Fields, cs: seq<Control>, b: bool, k: string)
    requires forall j :: 0 <= j < |cs| && Sent(cs[j], b) ==> cs[j].name.value != k
    ensures k in Harvest(data, cs, b) <==> k in data
    ensures k in data ==> Harvest(data, cs, b)[k] == data[k]
    decreases |cs|
  {
    if cs != [] {
      var next := if Sent(cs[0], b) then data[cs[0].name.value := cs[0].value] else data;
      forall j | 0 <= j < |cs| - 1 && Sent(cs[1..][j], b) ensures cs[1..][j].name.value != k {
        assert cs[1..][j] == cs[j + 1];
      }
      HarvestUntouched(next, cs[1..], b, k);
    }
  }

  /** The last stored control of a given name decides that key's value. */
  lemma {:induction false} HarvestLastWins(data: Fields, cs: seq<Control>, b: bool, i: nat)
    requires i < |cs| && Sent(cs[i], b)
    requires forall j :: i < j < |cs| && Sent(cs[j], b) ==> cs[j].name.value != cs[i].name.value
    ensures cs[i].name.value in Harvest(data, cs, b)
    ensures Harvest(data, cs, b)[cs[i].name.value] == cs[i].value
    decreases |cs|
  {
    var next := if Sent(cs[0], b) then data[cs[0].name.value := cs[0].value] else data;
    var k := cs[i].name.value;
    if i == 0 {
      forall j | 0 <= j < |cs| - 1 && Sent(cs[1..][j], b) ensures cs[1..][j].name.value != k {
        assert cs[1..][j] == cs[j + 1];
      }
      HarvestUntouched(next, cs[1..], b, k);
    } else {
      assert cs[1..][i - 1] == cs[i];
      forall j | i - 1 < j < |cs| - 1 && Sent(cs[1..][j], b) ensures cs[1..][j].name.value != k {
        assert cs[1..][j] == cs[j + 1];
      }
      HarvestLastWins(next, cs[1..], b, i - 1);
    }
  }
}

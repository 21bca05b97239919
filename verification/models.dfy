/**
 * The film document of postgres_to_es/models.py and its decoding from one row
 * of the enrichment query (`row_to_json(film)`).
 */
module Models {

  import opened Wrappers

  /** `FilmworkModel`: the document handed to `Transform`. */
  datatype FilmworkModel = FilmworkModel(
    id: string,
    title: string,
    persons: map<string, seq<string>>,
    genres: seq<string>)

  /** One `films` JSON value. `json_object_agg` and `json_agg` over no rows give
    * SQL NULL, so a film without persons or without genres has `None` here. */
  datatype FilmJson = FilmJson(
    id: string,
    title: string,
    persons: Option<map<string, seq<string>>>,
    genres: Option<seq<string>>)

  /** `FilmworkModel(**record['films'])`: validation fails (the constructor
    * raises) exactly when a required field is NULL. */
  function Decode(j: FilmJson): (r: Option<FilmworkModel>)
    ensures r.Some? <==> j.persons.Some? && j.genres.Some?
    ensures r.Some? ==> r.value.id == j.id && r.value.title == j.title
                        && r.value.persons == j.persons.value && r.value.genres == j.genres.value
  {
    match (j.persons, j.genres)
    case (Some(p), Some(g)) => Some(FilmworkModel(j.id, j.title, p, g))
    case _ => None
  }

  /** The list comprehension over one page: it raises as soon as one row fails,
    * otherwise it yields one model per row, in row order. */
  function DecodeAll(js: seq<FilmJson>): (r: Option<seq<FilmworkModel>>)
    ensures r.Some? <==> forall i :: 0 <= i < |js| ==> Decode(js[i]).Some?
    ensures r.Some? ==> |r.value| == |js|
    ensures r.Some? ==> forall i :: 0 <= i < |js| ==> Decode(js[i]) == Some(r.value[i])
  {
    if js == [] then Some([])
    else match (Decode(js[0]), DecodeAll(js[1..]))
      case (Some(m), Some(ms)) => Some([m] + ms)
      case _ => None
  }

  /** Decoding two pages one after the other is decoding their concatenation. */
  lemma {:induction false} DecodeAllConcat(a: seq<FilmJson>, b: seq<FilmJson>)
    ensures DecodeAll(a + b) ==
      if DecodeAll(a).Some? && DecodeAll(b).Some? then Some(DecodeAll(a).value + DecodeAll(b).value) else None
  {
    if a == [] {
      assert a + b == b;
      if DecodeAll(b).Some? {
        assert [] + DecodeAll(b).value == DecodeAll(b).value;
      }
    } else {
      assert (a + b)[0] == a[0];
      assert (a + b)[1..] == a[1..] + b;
      DecodeAllConcat(a[1..], b);
      if Decode(a[0]).Some? && DecodeAll(a[1..]).Some? && DecodeAll(b).Some? {
        assert [Decode(a[0]).value] + (DecodeAll(a[1..]).value + DecodeAll(b).value)
            == ([Decode(a[0]).value] + DecodeAll(a[1..]).value) + DecodeAll(b).value;
      }
    }
  }

  /** Decoding one more page: the models of the longer list end with that page's models. */
  lemma DecodeNextPage(a: seq<FilmJson>, b: seq<FilmJson>)
    requires DecodeAll(a).Some? && DecodeAll(b).Some?
    ensures DecodeAll(a + b).Some? && DecodeAll(a + b).value[|a|..] == DecodeAll(b).value
  {
    DecodeAllConcat(a, b);
    var x, y := DecodeAll(a).value, DecodeAll(b).value;
    assert (x + y)[|x|..] == y;
  }

  /** A slice that fails to decode makes the whole list fail. */
  lemma DecodeFailsWithSlice(js: seq<FilmJson>, i: nat, j: nat)
    requires i <= j <= |js| && DecodeAll(js[i..j]).None?
    ensures DecodeAll(js).None?
  {
    var k :| 0 <= k < j - i && Decode(js[i..j][k]).None?;
    assert js[i..j][k] == js[i + k];
  }

  /** Decoding as the document evidently intends: a film without persons or
    * without genres gets an empty `persons` map or an empty `genres` list
    * instead of failing validation. */
  function DecodeNullAsEmpty(j: FilmJson): (r: FilmworkModel)
    ensures r.id == j.id && r.title == j.title
    ensures j.persons.Some? ==> r.persons == j.persons.value
    ensures j.persons.None? ==> r.persons == map[]
    ensures j.genres.Some? ==> r.genres == j.genres.value
    ensures j.genres.None? ==> r.genres == []
    ensures Decode(j).Some? ==> r == Decode(j).value
  {
    FilmworkModel(
      j.id, j.title,
      if j.persons.Some? then j.persons.value else map[],
      if j.genres.Some? then j.genres.value else [])
  }

  /** One page decoded that way: never fails, one model per row in row order,
    * and the same models as `DecodeAll` whenever that succeeds. */
  function DecodeAllNullAsEmpty(js: seq<FilmJson>): (r: seq<FilmworkModel>)
    ensures |r| == |js|
    ensures forall i :: 0 <= i < |js| ==> r[i] == DecodeNullAsEmpty(js[i])
    ensures DecodeAll(js).Some? ==> r == DecodeAll(js).value
  {
    if js == [] then [] else [DecodeNullAsEmpty(js[0])] + DecodeAllNullAsEmpty(js[1..])
  }
}

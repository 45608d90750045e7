/**
 * The service's state and its request handlers (main.go), with the HTTP
 * layer stripped off: each handler takes its path or query parameters and
 * what binding the request body produced, and gives back an outcome instead
 * of writing a JSON response.
 */
module Handlers {
  import opened Wrappers
  import opened Models
  import opened Text
  import opened Records
  import opened Translate
  import opened Filter
  import opened Subsequences

  /** The fixed text shown in place of a record's own description. */
  const Placeholder: string := "Lorem ipsum dolor sit amet, consectetur adipiscing elit, sed do eiusmod tempor incididunt ut labore et dolore magna aliqua"

  /** A record as the single-record endpoint shows it. */
  datatype Detail = Detail(
    Code: string,
    Name: string,
    Description: string,
    Model: string,
    Tech: string,
    Status: string)

  /** What a handler answers: success with a value, an unknown code, or a body that failed to bind. */
  datatype Response<T> = Ok(value: T) | NotFound | BadRequest(error: string)

  /**
   * The shown form of a record: the model code and the tech keys translated
   * to labels (unknown tech keys dropped, the rest joined with ", "), the
   * status title-cased by `title`, and the placeholder description.
   */
  function Describe(d: Data, models: seq<ModelReference>, techs: seq<TechReference>, title: string -> string): Detail {
    Detail(d.Code, d.Name, Placeholder, TranslateModel(models, d.Model), Join(TranslateTech(techs, d.Tech)), title(d.Status))
  }

  /**
   * The shown tech text carries the labels of the record's known tech keys:
   * splitting it again gives them back, in order, as long as no label holds
   * the separator itself; with no known key the text is empty.
   */
  lemma DetailTechLabels(d: Data, models: seq<ModelReference>, techs: seq<TechReference>, title: string -> string)
    requires forall k :: 0 <= k < |TranslateTech(techs, d.Tech)| ==> !HasSep(TranslateTech(techs, d.Tech)[k])
    ensures TranslateTech(techs, d.Tech) == [] ==> Describe(d, models, techs, title).Tech == ""
    ensures TranslateTech(techs, d.Tech) != [] ==> Split(Describe(d, models, techs, title).Tech) == TranslateTech(techs, d.Tech)
  {
    if TranslateTech(techs, d.Tech) != [] {
      SplitJoin(TranslateTech(techs, d.Tech));
    }
  }

  /**
   * The filter trims the record's tech keys but the translation does not: a
   * key written with a leading space passes a filter for the bare key, yet
   * gets no label unless the table has the padded key itself.
   */
  lemma TrimAsymmetry(d: Data, techs: seq<TechReference>, t: string)
    requires forall k :: 0 <= k < |t| ==> t[k] != ',' && !IsSpace(t[k])
    requires d.Tech == " " + t
    requires forall j :: 0 <= j < |techs| ==> techs[j].Key != d.Tech
    ensures Matches(d, "", [t])
    ensures TranslateTech(techs, d.Tech) == []
  {
    PaddedNoSep(t);
    NoSpaceTrimmed(t);
    PaddedKey(d, techs, t);
  }

  /** A leading space does not create the separator in a string without commas. */
  lemma PaddedNoSep(t: string)
    requires forall k :: 0 <= k < |t| ==> t[k] != ','
    ensures !HasSep(" " + t)
  {
    NoCommaNoSep(t);
    assert (" " + t)[1..] == t;
    if |t| >= 1 {
      assert (" " + t)[..2][0] == ' ';
    }
  }

  /** The core of `TrimAsymmetry`, once the padded key is known to be separator-free and `t` trimmed. */
  lemma PaddedKey(d: Data, techs: seq<TechReference>, t: string)
    requires d.Tech == " " + t && !HasSep(d.Tech) && TrimSpace(t) == t
    requires forall j :: 0 <= j < |techs| ==> techs[j].Key != d.Tech
    ensures Matches(d, "", [t])
    ensures TranslateTech(techs, d.Tech) == []
  {
    SplitNoSep(d.Tech);
    assert d.Tech[1..] == t;
    assert TrimLeft(d.Tech) == TrimLeft(t);
    assert TrimSpace(d.Tech) == t;
    assert HasToken([d.Tech], t);
    assert [t][1..] == [];
    assert ContainsAll([d.Tech], [t]);
    LookupTechFirst(techs, d.Tech);
    assert [d.Tech][1..] == [];
    assert TranslateKeys(techs, [d.Tech]) == Labels(techs, d.Tech) + TranslateKeys(techs, []);
  }

  /** The three package-level collections the handlers share. */
  class Store {
    var data: seq<Data>
    var modelReferences: seq<ModelReference>
    var techReferences: seq<TechReference>

    /** The state initData leaves once the data file is read and parsed. */
    constructor (records: seq<Data>, models: seq<ModelReference>, techs: seq<TechReference>)
      ensures data == records && modelReferences == models && techReferences == techs
    {
      data := records;
      modelReferences := models;
      techReferences := techs;
    }

    /**
     * getDataByCode: the shown form of the first record whose code is
     * `code`, or NotFound when no record carries it.
     */
    method GetDataByCode(code: string, title: string -> string) returns (r: Response<Detail>)
      ensures r.NotFound? <==> !HasCode(data, code)
      ensures r.Ok? ==>
        && FindIndex(data, code).Some?
        && r.value == Describe(data[FindIndex(data, code).value], modelReferences, techReferences, title)
      ensures !r.BadRequest?
    {
      for i := 0 to |data|
        invariant forall j :: 0 <= j < i ==> data[j].Code != code
      {
        if data[i].Code == code {
          return Ok(Describe(data[i], modelReferences, techReferences, title));
        }
      }
      return NotFound;
    }

    /**
     * createData: a body that binds is appended as a new record, with the
     * fields it does not set left empty; a body that fails to bind is
     * rejected and nothing changes. No check is made for a duplicate code.
     */
    method CreateData(body: Binding) returns (r: Response<Data>)
      modifies this
      ensures modelReferences == old(modelReferences) && techReferences == old(techReferences)
      ensures body.error.Some? ==> r == BadRequest(body.error.value) && data == old(data)
      ensures body.error.None? ==> r == Ok(Apply(Empty, body.written)) && data == old(data) + [r.value]
    {
      var newData := Apply(Empty, body.written);
      if body.error.Some? {
        return BadRequest(body.error.value);
      }
      data := data + [newData];
      return Ok(newData);
    }

    /**
     * updateData: the body is bound into the first record whose code is
     * `code`, in place; that write happens even when binding then reports
     * an error, which is answered with BadRequest. An unknown code is
     * answered with NotFound before the body is read, and nothing changes.
     */
    method UpdateData(code: string, body: Binding) returns (r: Response<Data>)
      modifies this
      ensures modelReferences == old(modelReferences) && techReferences == old(techReferences)
      ensures data == Patched(old(data), code, body.written)
      ensures !HasCode(old(data), code) ==> r == NotFound
      ensures HasCode(old(data), code) ==>
        r == if body.error.Some? then BadRequest(body.error.value) else Ok(data[FindIndex(old(data), code).value])
    {
      for i := 0 to |data|
        invariant data == old(data)
        invariant modelReferences == old(modelReferences) && techReferences == old(techReferences)
        invariant forall j :: 0 <= j < i ==> data[j].Code != code
      {
        if data[i].Code == code {
          data := data[i := Apply(data[i], body.written)];
          if body.error.Some? {
            return BadRequest(body.error.value);
          }
          return Ok(data[i]);
        }
      }
      return NotFound;
    }

    /**
     * deleteData: the first record whose code is `code` is spliced out,
     * the others keeping their order; an unknown code is answered with
     * NotFound and nothing changes.
     */
    method DeleteData(code: string) returns (r: Response<()>)
      modifies this
      ensures modelReferences == old(modelReferences) && techReferences == old(techReferences)
      ensures data == Removed(old(data), code)
      ensures r == if HasCode(old(data), code) then Ok(()) else NotFound
    {
      for i := 0 to |data|
        invariant data == old(data)
        invariant modelReferences == old(modelReferences) && techReferences == old(techReferences)
        invariant forall j :: 0 <= j < i ==> data[j].Code != code
      {
        if data[i].Code == code {
          data := data[..i] + data[i + 1..];
          return Ok(());
        }
      }
      return NotFound;
    }

    /**
     * filterData: the records of the requested model (any model when
     * `model` is empty) that carry every requested tech key (no condition
     * when `techs` is empty), in collection order.
     */
    method FilterData(model: string, techs: seq<string>) returns (r: seq<Data>)
      ensures r == Filtered(data, model, techs)
      ensures IsSubsequence(r, data)
      ensures forall d :: d in r <==> d in data && Matches(d, model, techs)
    {
      r := [];
      for i := 0 to |data|
        invariant r == Filtered(data[..i], model, techs)
      {
        assert data[..i + 1][..i] == data[..i];
        if (model == "" || data[i].Model == model) && (|techs| == 0 || ContainsAll(Split(data[i].Tech), techs)) {
          r := r + [data[i]];
        }
      }
      assert data[..|data|] == data;
      FilteredIsSubsequence(data, model, techs);
      forall d ensures d in r <==> d in data && Matches(d, model, techs) {
        FilteredMembers(data, model, techs, d);
      }
    }
  }
}

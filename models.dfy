/**
 * The record types of the service (models/data.go): a data record with six
 * string fields, and the two key/label reference pairs.
 */
module Models {
  import opened Wrappers

  /** One record of the collection; `Tech` is a ", "-separated list of tech keys. */
  datatype Data = Data(
    Code: string,
    Name: string,
    Model: string,
    Tech: string,
    Status: string,
    Description: string)

  /** Translation of a model key into a display label. */
  datatype ModelReference = ModelReference(Key: string, Value: string)

  /** Translation of a tech key into a display label. */
  datatype TechReference = TechReference(Key: string, Value: string)

  /** The value every field of a freshly declared Go record holds. */
  const Empty: Data := Data("", "", "", "", "", "")

  /**
   * What decoding a JSON request body writes into a record: the fields that
   * the body set (None for a field the body did not set).
   */
  datatype Patch = Patch(
    Code: Option<string>,
    Name: Option<string>,
    Model: Option<string>,
    Tech: Option<string>,
    Status: Option<string>,
    Description: Option<string>)

  /**
   * The outcome of binding a request body into a record: the fields the
   * decoder wrote, and the error it reported, if any. A malformed document
   * writes nothing; a field of the wrong type is skipped while the others are
   * still written, and the decoder then reports the error.
   */
  datatype Binding = Binding(written: Patch, error: Option<string>)

  function Pick(field: Option<string>, current: string): string {
    match field
    case Some(v) => v
    case None => current
  }

  /** Decoding into an existing record: fields the body sets are overwritten, the others keep their value. */
  function Apply(d: Data, p: Patch): Data {
    Data(
      Pick(p.Code, d.Code),
      Pick(p.Name, d.Name),
      Pick(p.Model, d.Model),
      Pick(p.Tech, d.Tech),
      Pick(p.Status, d.Status),
      Pick(p.Description, d.Description))
  }

  /** A body that sets every field. */
  function Full(d: Data): Patch {
    Patch(Some(d.Code), Some(d.Name), Some(d.Model), Some(d.Tech), Some(d.Status), Some(d.Description))
  }

  /** A body that sets every field replaces the record outright, whatever it held. */
  lemma ApplyFull(current: Data, d: Data)
    ensures Apply(current, Full(d)) == d
  {
  }

  /** A body that sets no field, such as `{}`. */
  const Unset: Patch := Patch(None, None, None, None, None, None)

  /** Binding a body that sets no field leaves the record as it was. */
  lemma ApplyUnset(d: Data)
    ensures Apply(d, Unset) == d
  {
  }

  /** Binding the same body into one record a second time changes nothing more. */
  lemma ApplyTwice(d: Data, p: Patch)
    ensures Apply(Apply(d, p), p) == Apply(d, p)
  {
  }

  /**
   * A later body wins on the fields it sets, and the earlier body on the
   * fields only it sets: two bindings in a row are one binding of the
   * merged body.
   */
  lemma ApplyThen(d: Data, p: Patch, q: Patch)
    ensures Apply(Apply(d, p), q) == Apply(d, Then(p, q))
    ensures Then(p, Unset) == p && Then(Unset, q) == q
  {
  }

  /** The fields `q` sets, and otherwise those `p` sets. */
  function Then(p: Patch, q: Patch): Patch {
    Patch(
      if q.Code.Some? then q.Code else p.Code,
      if q.Name.Some? then q.Name else p.Name,
      if q.Model.Some? then q.Model else p.Model,
      if q.Tech.Some? then q.Tech else p.Tech,
      if q.Status.Some? then q.Status else p.Status,
      if q.Description.Some? then q.Description else p.Description)
  }
}

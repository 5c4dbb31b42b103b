/**
 * The resource index extractor of src/utils/fpi.ts: from a package file's
 * name and its decoded resource, the `FileInPackageIndex` record stored in
 * the package's `.fpi.index.json`.
 */
module ResourceIndex {
  import opened Wrappers

  /**
   * A property of a decoded resource, as far as `evalAttribute` tells it apart.
   * `resourceType` and `id` are copied rather than tested, so a non-string
   * value of theirs is kept only as the `Other` tag.
   */
  datatype Json =
    | Str(s: string)  // a string
    | Other           // any other JSON value: number, boolean, null, array or object
    | Absent          // the property is missing

  /** The ten scalar attributes the index keeps when they are strings. */
  datatype Attribute =
    Url | Name | Version | Kind | Type | Supplements | Content | BaseDefinition | Derivation | Date

  /** The properties of a package resource that the extractor reads. */
  datatype Resource = Resource(
    resourceType: Json, id: Json,
    url: Json, name: Json, version: Json, kind: Json, type_: Json,
    supplements: Json, content: Json, baseDefinition: Json, derivation: Json, date: Json)
  {
    function Get(a: Attribute): Json {
      match a
      case Url => url
      case Name => name
      case Version => version
      case Kind => kind
      case Type => type_
      case Supplements => supplements
      case Content => content
      case BaseDefinition => baseDefinition
      case Derivation => derivation
      case Date => date
    }
  }

  /** One entry of the package index. */
  datatype FileInPackageIndex = FileInPackageIndex(
    filename: string, resourceType: Json, id: Json,
    url: Option<string>, name: Option<string>, version: Option<string>, kind: Option<string>,
    type_: Option<string>, supplements: Option<string>, content: Option<string>,
    baseDefinition: Option<string>, derivation: Option<string>, date: Option<string>)
  {
    function Get(a: Attribute): Option<string> {
      match a
      case Url => url
      case Name => name
      case Version => version
      case Kind => kind
      case Type => type_
      case Supplements => supplements
      case Content => content
      case BaseDefinition => baseDefinition
      case Derivation => derivation
      case Date => date
    }
  }

  /** `evalAttribute`: a string passes through, anything else is absent. */
  function EvalAttribute(att: Json): (r: Option<string>)
    ensures r.Some? <==> att.Str?
    ensures r.Some? ==> att == Str(r.value)
  {
    if att.Str? then Some(att.s) else None
  }

  /**
   * `extractResourceIndexEntry`. Total: every name and resource give an entry.
   * `filename`, `resourceType` and `id` are copied as they are; each of the
   * ten scalar fields is `evalAttribute` of the attribute of the same name.
   */
  function ExtractResourceIndexEntry(filename: string, content: Resource): (e: FileInPackageIndex)
    ensures e.filename == filename
    ensures e.resourceType == content.resourceType && e.id == content.id
    ensures forall a: Attribute :: e.Get(a) == EvalAttribute(content.Get(a))
  {
    FileInPackageIndex(
      filename, content.resourceType, content.id,
      EvalAttribute(content.url), EvalAttribute(content.name), EvalAttribute(content.version),
      EvalAttribute(content.kind), EvalAttribute(content.type_), EvalAttribute(content.supplements),
      EvalAttribute(content.content), EvalAttribute(content.baseDefinition),
      EvalAttribute(content.derivation), EvalAttribute(content.date))
  }

  /** A string attribute appears unchanged in the field of the same name. */
  lemma StringAttributeIndexed(filename: string, content: Resource, a: Attribute, s: string)
    requires content.Get(a) == Str(s)
    ensures ExtractResourceIndexEntry(filename, content).Get(a) == Some(s)
  {
  }

  /** A non-string attribute (array, number, object, missing) leaves its field absent. */
  lemma NonStringAttributeAbsent(filename: string, content: Resource, a: Attribute)
    requires !content.Get(a).Str?
    ensures ExtractResourceIndexEntry(filename, content).Get(a) == None
  {
  }

  /** Each field depends only on the attribute of the same name: fields are never mixed. */
  lemma FieldDependsOnItsAttributeOnly(f1: string, c1: Resource, f2: string, c2: Resource, a: Attribute)
    requires c1.Get(a) == c2.Get(a)
    ensures ExtractResourceIndexEntry(f1, c1).Get(a) == ExtractResourceIndexEntry(f2, c2).Get(a)
  {
  }

  /** The value an index field stands for when read back as a resource property. */
  function AsJson(o: Option<string>): (j: Json)
    ensures EvalAttribute(j) == o
  {
    match o
    case Some(s) => Str(s)
    case None => Absent
  }

  /** `evalAttribute` is idempotent. */
  lemma EvalAttributeIdempotent(att: Json)
    ensures EvalAttribute(AsJson(EvalAttribute(att))) == EvalAttribute(att)
  {
  }

  /** A resource shaped like an index entry (absent fields missing). */
  function AsResource(e: FileInPackageIndex): (r: Resource)
    ensures r.resourceType == e.resourceType && r.id == e.id
    ensures forall a: Attribute :: EvalAttribute(r.Get(a)) == e.Get(a)
  {
    Resource(e.resourceType, e.id,
      AsJson(e.url), AsJson(e.name), AsJson(e.version), AsJson(e.kind), AsJson(e.type_),
      AsJson(e.supplements), AsJson(e.content), AsJson(e.baseDefinition),
      AsJson(e.derivation), AsJson(e.date))
  }

  /** Re-extracting from a record shaped like an entry gives back the same entry. */
  lemma ReextractionIsIdentity(e: FileInPackageIndex)
    ensures ExtractResourceIndexEntry(e.filename, AsResource(e)) == e
  {
  }

  /** A string `url` is indexed; an array-valued `url` is not. */
  lemma UrlScalarIndexedArrayDropped(filename: string, base: Resource)
    ensures var sd := base.(resourceType := Str("StructureDefinition"), id := Str("x"), url := Str("http://a"));
      ExtractResourceIndexEntry(filename, sd).url == Some("http://a")
    ensures ExtractResourceIndexEntry(filename, base.(url := Other)).url == None
  {
  }
}

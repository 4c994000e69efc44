/** The part of the Xpedition PCB application and its open document that the
    importer drives: the named user layers with the graphics drawn on them,
    the record of layer-creation requests, and the Output tab of the message
    window. Whether the application agrees to create a given user layer is
    outside the importer's control; the model fixes it per name in
    `refused`. */
module Host {
  import opened Decimal
  import opened Geometry

  datatype Severity = Note | Warning | Error

  /** The transcript lines the import pass writes, each with its severity
      and its text as `Transcript(msg, svrty)` receives them. */
  datatype Message =
    | LayerSetUp(layer: string)
    | LayerSetupFailed(layer: string)
    | BoundarySkipped(layer: string)
    | NotImplemented(kind: string)
    | RecordsProcessed(count: int)
  {
    function Severity(): Severity {
      match this
      case LayerSetUp(_) => Note
      case LayerSetupFailed(_) => Error
      case BoundarySkipped(_) => Error
      case NotImplemented(_) => Warning
      case RecordsProcessed(_) => Note
    }

    function Text(): string {
      match this
      case LayerSetUp(uln) => "User Layer \"" + uln + "\" setup for GDS import."
      case LayerSetupFailed(uln) => "Unabled to setup User Layer \"" + uln + "\" for GDS import."
      case BoundarySkipped(uln) => "Unable to find User Layer \"" + uln + "\", Boundary element skipped."
      case NotImplemented(kind) => "GDS " + kind + " element has not been implemented."
      case RecordsProcessed(rc) => "Processed " + IntDecimal(rc) + " records in GDS source file."
    }
  }

  /** One `PutUserLayerGfx(layer, width, numPoints, points, filled,
      component, unit)` call; the component argument is always None and is
      not kept. */
  datatype UserLayerGfx = UserLayerGfx(width: real, numPoints: int, points: PointsArray, filled: bool, unit: int)

  /** The observable state of the application, as one value. */
  datatype Snapshot = Snapshot(
    userLayers: map<string, seq<UserLayerGfx>>,
    layerRequests: seq<string>,
    messages: seq<Message>)

  class Xpedition {
    /** Each user layer of the document, with its graphics in drawing order. */
    var userLayers: map<string, seq<UserLayerGfx>>
    /** Every name passed to `SetupParameter.PutUserLayer`, in call order. */
    var layerRequests: seq<string>
    /** The Output tab of the message window. */
    var messages: seq<Message>
    /** The names for which `PutUserLayer` returns None. */
    const refused: set<string>

    constructor (existing: map<string, seq<UserLayerGfx>>, refused: set<string>)
      ensures userLayers == existing && layerRequests == [] && messages == []
      ensures this.refused == refused
    {
      userLayers := existing;
      layerRequests := [];
      messages := [];
      this.refused := refused;
    }

    function State(): Snapshot
      reads this
    {
      Snapshot(userLayers, layerRequests, messages)
    }

    /** `pcbDoc.FindUserLayer(name)`: whether the document has the layer. */
    method FindUserLayer(name: string) returns (found: bool)
      ensures found <==> name in userLayers
    {
      found := name in userLayers;
    }

    /** `pcbDoc.SetupParameter.PutUserLayer(name)`: a request to create the
        layer, which succeeds unless the name is refused. A new layer holds
        no graphics; an existing one is left as it is. */
    method PutUserLayer(name: string) returns (created: bool)
      modifies this
      ensures created <==> name !in refused
      ensures layerRequests == old(layerRequests) + [name]
      ensures userLayers == if created && name !in old(userLayers) then old(userLayers)[name := []] else old(userLayers)
      ensures messages == old(messages)
    {
      layerRequests := layerRequests + [name];
      created := name !in refused;
      if created && name !in userLayers {
        userLayers := userLayers[name := []];
      }
    }

    /** `pcbDoc.PutUserLayerGfx(...)`: appends one graphic to a layer and
        changes no other layer. */
    method PutUserLayerGfx(name: string, gfx: UserLayerGfx)
      requires name in userLayers
      modifies this
      ensures userLayers == old(userLayers)[name := old(userLayers)[name] + [gfx]]
      ensures layerRequests == old(layerRequests) && messages == old(messages)
    {
      userLayers := userLayers[name := userLayers[name] + [gfx]];
    }

    /** `Transcript(msg, svrty)`: appends one line to the message window. */
    method Transcript(m: Message)
      modifies this
      ensures messages == old(messages) + [m]
      ensures userLayers == old(userLayers) && layerRequests == old(layerRequests)
    {
      messages := messages + [m];
    }
  }
}

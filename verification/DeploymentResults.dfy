/**
 * Deployment results and their wire format. JSON text is a value of type Raw: either the encoding of a JSON value or
 * something that is not JSON at all. Which characters spell which value is not modelled.
 */
module DeploymentResults {
  import opened Strings

  /** A JSON number as encoding/json's Number converts it: an int64, else a float64, else neither. */
  datatype Numeral = Int64(n: int) | Float64(literal: string) | Overflow(literal: string)

  datatype Json =
    | Null
    | Bool(b: bool)
    | Number(n: Numeral)
    | Str(s: string)
    | Arr(items: seq<Json>)
    | Obj(fields: map<string, Json>)

  datatype Raw = JsonText(json: Json) | NotJson(text: string)

  /** The DeploymentResult type of a Kubernetes Service (pkg/deploymentresult/service_spec.go). */
  const TYPE_HTTP_K8S_SERVICE := "http-k8s-service"
  const PROTOCOL_TCP := "TCP"

  type Int32 = n: int | -0x8000_0000 <= n < 0x8000_0000

  datatype IntOrString = IntVal(n: Int32) | StrVal(s: string)

  /** A Kubernetes Service port as its API type marshals it; an appProtocol may be absent or empty. */
  datatype ServicePort = ServicePort(
    name: string,
    protocol: string,
    appProtocol: Option<string>,
    port: Int32,
    targetPort: IntOrString,
    nodePort: Int32)

  datatype ServiceSpec = ServiceSpec(
    namespace: string,
    k8sName: string,
    ports: seq<ServicePort>,
    exposedPort: string)

  /** `spec` is None when the RawExtension holds no bytes, which is also how the API reads a null. */
  datatype DeploymentResult = DeploymentResult(name: string, typ: string, spec: Option<Raw>)

  // ----- encoding (json.Marshal) -----

  function OptionalString(key: string, value: string): map<string, Json> {
    if value == "" then map[] else map[key := Str(value)]
  }

  function EncodeIntOrString(v: IntOrString): Json {
    match v
    case IntVal(n) => Number(Int64(n))
    case StrVal(s) => Str(s)
  }

  /** The fields of a port; targetPort is a struct, so omitempty never omits it. */
  function PortFields(p: ServicePort): map<string, Json> {
    OptionalString("name", p.name) + OptionalString("protocol", p.protocol)
    + (if p.appProtocol.None? then map[] else map["appProtocol" := Str(p.appProtocol.value)])
    + map["port" := Number(Int64(p.port)), "targetPort" := EncodeIntOrString(p.targetPort)]
    + (if p.nodePort == 0 then map[] else map["nodePort" := Number(Int64(p.nodePort))])
  }

  function EncodePort(p: ServicePort): Json {
    Obj(PortFields(p))
  }

  function EncodePorts(ports: seq<ServicePort>): seq<Json> {
    if ports == [] then [] else [EncodePort(ports[0])] + EncodePorts(ports[1..])
  }

  function EncodeServiceSpec(spec: ServiceSpec): Json {
    Obj(map["Namespace" := Str(spec.namespace),
            "K8sName" := Str(spec.k8sName),
            "ServicePorts" := if spec.ports == [] then Null else Arr(EncodePorts(spec.ports))]
        + OptionalString("IngressExposedPortName", spec.exposedPort))
  }

  // ----- decoding (json.Unmarshal): a missing field or null is the zero value, a field of another kind an error -----

  function StringField(fields: map<string, Json>, key: string): Option<string> {
    if key !in fields || fields[key].Null? then Some("")
    else if fields[key].Str? then Some(fields[key].s)
    else None
  }

  function Int32Field(fields: map<string, Json>, key: string): Option<Int32> {
    if key !in fields || fields[key].Null? then Some(0)
    else if fields[key].Number? && fields[key].n.Int64? && -0x8000_0000 <= fields[key].n.n < 0x8000_0000
    then Some(fields[key].n.n)
    else None
  }

  function OptionalStringField(fields: map<string, Json>, key: string): Option<Option<string>> {
    if key !in fields || fields[key].Null? then Some(None)
    else if fields[key].Str? then Some(Some(fields[key].s))
    else None
  }

  function IntOrStringField(fields: map<string, Json>, key: string): Option<IntOrString> {
    if key in fields && fields[key].Str? then Some(StrVal(fields[key].s))
    else match Int32Field(fields, key)
      case Some(n) => Some(IntVal(n))
      case None => None
  }

  function DecodePort(json: Json): Option<ServicePort> {
    match json
    case Null => Some(ServicePort("", "", None, 0, IntVal(0), 0))
    case Obj(fields) =>
      (match (StringField(fields, "name"), StringField(fields, "protocol"), OptionalStringField(fields, "appProtocol"),
              Int32Field(fields, "port"), IntOrStringField(fields, "targetPort"), Int32Field(fields, "nodePort"))
       case (Some(name), Some(protocol), Some(appProtocol), Some(port), Some(targetPort), Some(nodePort)) =>
         Some(ServicePort(name, protocol, appProtocol, port, targetPort, nodePort))
       case _ => None)
    case _ => None
  }

  function DecodePorts(items: seq<Json>): Option<seq<ServicePort>> {
    if items == [] then Some([])
    else match (DecodePort(items[0]), DecodePorts(items[1..]))
      case (Some(port), Some(rest)) => Some([port] + rest)
      case _ => None
  }

  function PortsField(fields: map<string, Json>, key: string): Option<seq<ServicePort>> {
    if key !in fields || fields[key].Null? then Some([])
    else if fields[key].Arr? then DecodePorts(fields[key].items)
    else None
  }

  /** No bytes at all are not JSON. */
  function DecodeServiceSpec(text: Option<Raw>): Option<ServiceSpec> {
    match text
    case None => None
    case Some(NotJson(_)) => None
    case Some(JsonText(Null)) => Some(ServiceSpec("", "", [], ""))
    case Some(JsonText(Obj(fields))) =>
      (match (StringField(fields, "Namespace"), StringField(fields, "K8sName"),
              PortsField(fields, "ServicePorts"), StringField(fields, "IngressExposedPortName"))
       case (Some(namespace), Some(k8sName), Some(ports), Some(exposedPort)) =>
         Some(ServiceSpec(namespace, k8sName, ports, exposedPort))
       case _ => None)
    case Some(JsonText(_)) => None
  }

  /** Field names of a port differ, so none hides another. */
  lemma PortKeysApart()
    ensures "name" != "port" && |"name"| == |"port"| == 4 && |"protocol"| == 8 && |"nodePort"| == 8 && |"targetPort"| == 10
    ensures |"appProtocol"| == 11 && "protocol" != "nodePort"
  {
    assert "name"[0] == 'n' && "port"[0] == 'p' && "protocol"[0] == 'p' && "nodePort"[0] == 'n';
  }

  lemma PortStringsRead(p: ServicePort)
    ensures var fields := PortFields(p);
            && StringField(fields, "name") == Some(p.name) && StringField(fields, "protocol") == Some(p.protocol)
            && OptionalStringField(fields, "appProtocol") == Some(p.appProtocol)
  {
    PortKeysApart();
  }

  lemma PortNumbersRead(p: ServicePort)
    ensures var fields := PortFields(p);
            && Int32Field(fields, "port") == Some(p.port)
            && IntOrStringField(fields, "targetPort") == Some(p.targetPort)
            && Int32Field(fields, "nodePort") == Some(p.nodePort)
  {
    PortKeysApart();
  }

  lemma PortRoundTrip(p: ServicePort)
    ensures DecodePort(EncodePort(p)) == Some(p)
  {
    hide PortFields, StringField, OptionalStringField, Int32Field, IntOrStringField;
    PortStringsRead(p);
    PortNumbersRead(p);
  }

  lemma {:induction false} PortsRoundTrip(ports: seq<ServicePort>)
    ensures DecodePorts(EncodePorts(ports)) == Some(ports)
  {
    hide EncodePort, DecodePort;
    if ports != [] {
      PortsRoundTrip(ports[1..]);
      PortRoundTrip(ports[0]);
      assert EncodePorts(ports)[1..] == EncodePorts(ports[1..]);
      assert ports == [ports[0]] + ports[1..];
    }
  }

  /** What the deployer writes into a result is what the router reads out of it. */
  lemma ServiceSpecRoundTrip(spec: ServiceSpec)
    ensures DecodeServiceSpec(Some(JsonText(EncodeServiceSpec(spec)))) == Some(spec)
  {
    hide EncodePorts, DecodePorts;
    PortsRoundTrip(spec.ports);
    var fields := EncodeServiceSpec(spec).fields;
    assert StringField(fields, "Namespace") == Some(spec.namespace);
    assert StringField(fields, "K8sName") == Some(spec.k8sName);
    assert PortsField(fields, "ServicePorts") == Some(spec.ports);
    assert StringField(fields, "IngressExposedPortName") == Some(spec.exposedPort);
  }

  /** A null field reads like one that is absent, in a spec and in its ports. */
  lemma NullIsAbsent(fields: map<string, Json>, key: string)
    requires key !in fields
    ensures DecodeServiceSpec(Some(JsonText(Obj(fields[key := Null])))) == DecodeServiceSpec(Some(JsonText(Obj(fields))))
    ensures DecodePort(Obj(fields[key := Null])) == DecodePort(Obj(fields))
  {
    hide DecodePorts;
    forall k ensures StringField(fields[key := Null], k) == StringField(fields, k)
                     && OptionalStringField(fields[key := Null], k) == OptionalStringField(fields, k)
                     && Int32Field(fields[key := Null], k) == Int32Field(fields, k)
                     && IntOrStringField(fields[key := Null], k) == IntOrStringField(fields, k)
                     && PortsField(fields[key := Null], k) == PortsField(fields, k)
    {
    }
  }
}

/** Checked topic segments and the identifiers that wrap them: src/sparkplug/topic/ids.rs. */
module Ids {
  import opened Prelude
  import opened Types

  predicate IsUsableSegment(value: string) {
    value != "" && '/' !in value && '+' !in value && '#' !in value
  }

  /** A segment that passed the check; every identifier holds one. */
  type Segment = value: string | IsUsableSegment(value) witness "x"

  datatype GroupId = GroupId(text: Segment)
  datatype EdgeNodeId = EdgeNodeId(text: Segment)
  datatype DeviceId = DeviceId(text: Segment)
  datatype HostId = HostId(text: Segment)

  /** The pair that names one edge node. */
  datatype EdgeNode = EdgeNode(group: GroupId, node: EdgeNodeId)

  function CheckSegment(value: string): (r: Result<Segment, SparkplugError>)
    ensures r.Success? <==> |value| > 0 && forall i | 0 <= i < |value| :: value[i] !in "/+#"
    ensures r.Success? ==> r.value == value
    ensures r.Failure? ==> r.error == InvalidTopic(value)
  {
    if IsUsableSegment(value) then Success(value) else Failure(InvalidTopic(value))
  }

  /** The key of the gate map, `{group}/{node}` (src/sparkplug/seq.rs). */
  function KeyOf(edge: EdgeNode): string {
    edge.group.text + "/" + edge.node.text
  }

  /** No two edge nodes write the same key, because no segment holds a `/`. */
  lemma KeyOfIsInjective(a: EdgeNode, b: EdgeNode)
    ensures KeyOf(a) == KeyOf(b) <==> a == b
  {
    if KeyOf(a) == KeyOf(b) {
      SameHead(a.group.text, a.node.text, b.group.text, b.node.text);
    }
  }

  lemma {:induction false} SameHead(p: string, x: string, q: string, y: string)
    requires '/' !in p && '/' !in q
    requires p + "/" + x == q + "/" + y
    ensures p == q && x == y
  {
    var s := p + "/" + x;
    var k, l := |p|, |q|;
    assert s[..k] == p && s[k] == '/' && s[k + 1..] == x;
    assert s[..l] == q && s[l] == '/' && s[l + 1..] == y;
    assert forall i | 0 <= i < k :: s[i] == p[i] && s[i] != '/';
    assert forall i | 0 <= i < l :: s[i] == q[i] && s[i] != '/';
  }
}

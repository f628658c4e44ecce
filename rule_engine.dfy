/** The parts of the rule-engine host that the "get sum" node sees: the
    message it is handed and the configuration it is initialised with. */
module RuleEngine {

  /** `TbMsg`: a message travelling through the rule chain. The node reads
      and passes on the type, the originator and the metadata, and replaces
      only `data`, the payload as JSON text. */
  datatype TbMsg = TbMsg(
    msgType: string,
    originator: string,
    metaData: map<string, string>,
    data: string)

  /** `TbGetSumNodeConfiguration`: the two strings set up for the node. */
  datatype Configuration = Configuration(inputKey: string, outputKey: string)
}

/** The records the scanner produces and the report reads. */
module Types {

  /** A CVE reference, with the fields the report prints. */
  datatype CVEInfo = CVEInfo(id: string, description: string, severity: string)

  /** A MITRE ATT&CK technique reference. */
  datatype MITREInfo = MITREInfo(id: string, name: string, description: string, tactic: string)

  /** An entry of the FSTEC BDU (the Russian national vulnerability database). */
  datatype FSTECInfo = FSTECInfo(id: string, title: string, description: string, severity: string)

  /** The result of probing one (IP, port) target. */
  datatype ScanResult = ScanResult(
    ip: string,
    port: int,
    state: string,
    service: string,
    cves: seq<CVEInfo>,
    mitre: seq<MITREInfo>,
    fstec: seq<FSTECInfo>,
    penTestCommands: seq<string>)
}

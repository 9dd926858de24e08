/** Port and table numbers of constants.py. */
module Constants {
  const VNI_NONE: nat := 0
  const OFP_LOCAL: nat := 0
  const OFP_UPLINK_BASE: nat := 1
  const OFP_VHOST_BASE: nat := 10
  const OFP_TUNNEL_BASE: nat := 100

  const OF_TABLE_ADMISS: nat := 0
  const OF_TABLE_INPUT: nat := 20
  const OF_TABLE_ACL: nat := 30
  const OF_TABLE_CORE: nat := 40
  const OF_TABLE_FIB: nat := 50
  const OF_TABLE_NAT: nat := 60
  const OF_TABLE_L2_MATCH: nat := 70
  const OF_TABLE_OUTPUT: nat := 80
}
